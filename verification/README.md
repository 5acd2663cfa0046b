# MeshCDN in Dafny

A verification model of MeshCDN: a cluster of CDN edge nodes that keep one configuration
database in step by exporting it as command text and replaying that text elsewhere.

The model has two layers. *Step functions* (`Store`, `Batches`, `Snapshots`, ...) give what
each operation does to the tables as values, and the theorems are about them. *Classes and
methods* (`Executor.Node`, `Peers.Manager`, `Mesh.Coordinator`, `Policies.DomainPolicy`,
`Publishing.Disk`, `Renewal.Worker`, `Logs.Store`) change state in place with the loops of the
original and are proved equal to the step functions.

| file | what it holds |
|---|---|
| Text | trimming, splitting, numbers and string order, with their round trips |
| Commands, Scopes, Rules | the command language, domain scopes, rule-object parameters |
| Peers, Orders | the membership list and its reconciliation; sorted query results |
| Store | the tables, what each handler does to them, port enforcement |
| Invariants, Batches, Undo | what commands and batches keep, when the version moves, how handlers undo each other |
| Agreement, Clashes | when a batch clashes on a port, exactly what that costs, and a run in which it happens |
| Snapshots, Exports, Replication, Membership | export, print, parse, import; the round trip; what is left of the membership |
| Runs | whole runs of one node, reachability, rebuild after a wipe |
| Reupload | an uploaded command file, and re-uploading one's own export |
| Executor | the imperative node: handlers, batches, import, export |
| Mesh, Stale | the cluster as a state machine: one writer, heartbeats, notifications, pulls; what an overtaken capture does |
| Policies | the stricter-wins merge of bound rule objects |
| Publishing | rendering, the staged publish, file names and default servers |
| Certificates, Renewal | certificate selection, the renewal queue and its alerts |
| Logs | the incremental log collector and its queries |

## Hypotheses

- Library predicates enter as parameters: `Env.parseIP` for net.ParseIP, `Env.uaOk` for the
  User-Agent pattern checks, `Logs.Reader` for the JSON and time parsers. Command types with
  external effects are an oracle that says whether they succeed and touch no table.
- `Exported` asks that the version fits 64 bits and that the two header texts are one line.
- The cluster theorems assume one writer whose batches do not commit a clash without a version
  step. Heartbeat passes capture the version once and their answers may be late. Each theorem
  names the guard its answers meet; `Mesh.PingConsistentIff` and `Mesh.PingSafeIff` show that
  the guards are exact, `Stale.WriterFallsBack` what happens without.
- A snapshot is exported, applied and reconciled in one step of the cluster, and a notification
  is compared with the local version in the step that starts the pull.
- Times are integers and the exported timestamp is text.

## Where code and documentation differ

- internal/command/portproto.go:11 says a conflict rolls the row write back. The rows stay in the
  transaction and are committed with any other success (`Clashes.ClashCommitted`,
  `Agreement.UnbumpedUnchangedIff`).
- internal/command/executor.go:125-127 says port bindings are enforced once at the end of the
  batch; they are enforced after each command.
- internal/nginx/precedence.go:103 calls RateLimit the maximum; the code keeps the least
  positive rate (`Policies.LimitIsLeast`).
- internal/nginx/precedence.go:426-428 presents sizes as byte counts; a product beyond 64 bits
  wraps around (`Policies.ComparedTrulyIff`).
- internal/command/handlers/domain.go:293 says the ports are sorted; they keep the order written.
- internal/cert/renew/worker.go:9 calls the queue unbuffered; it holds 64 tasks.
- internal/mesh/coordinator.go:271-272 calls a further pull a no-op once the node is at the target;
  nothing compares versions there, and a pull may take the node back (`Stale.WriterFallsBack`).
- A host named `any` takes the file of the catch-all server of its port
  (`Publishing.OneDefaultIff`).
- internal/cli/boot.go:62-65 leaves the version at zero when the saved snapshot has a version
  but no commands (`Runs.RebuildAfterWipe`).

## Model

| member | source | states |
|---|---|---|
| Runs.ReachableReplicates | internal/snapshot/import.go:48-105 | For any two reachable databases, exporting one and importing the text into the other fails on no line and reproduces domains, rule objects, bindings and version. |
| Runs.PoliciesReplicate | internal/nginx/precedence.go:131-189 | After such an import every server block has the policy it has on the exporting node. |
| Replication.Replicates | internal/snapshot/import.go:48-105 | Export, print, parse and import from any database meeting the invariant into any other: every line applies; rule tables, peers, version, and the overrides that are set, are the exporter's; the port table records exactly the ports in use. |
| Replication.PortsReplicate | internal/command/portproto.go:32-70 | Under port agreement the imported port table is the exporter's cut down to the ports in use, and agrees again. |
| Replication.ExportRunsForced | internal/command/executor.go:502-539 | Replaying an export in force over wiped tables succeeds command by command and rebuilds the tables. |
| Replication.ExportRunsInPlace | internal/command/executor.go:82-217 | Running a database's own export over itself, unforced and under port agreement, succeeds everywhere and changes no table. |
| Replication.ReplayPrinted | internal/command/executor.go:502-539 | Replaying printed lines is running the commands: as many applied as there are, no error. |
| Replication.ExportIsExportable | internal/snapshot/snapshot.go:160-270 | Every exported command is a write in the form the parser produces, so it survives printing and parsing. |
| Replication.ExportIsPrintable | internal/snapshot/snapshot.go:324-336 | Every exported line is one line that the snapshot parser keeps as a command. |
| Runs.ExportIsFaithful | internal/snapshot/snapshot.go:117-158 | Two databases with the same exported text have equal tables, version and overrides: the export loses nothing but unused port rows. |
| Runs.RunKeepsInv | internal/snapshot/import.go:59-88 | Referential integrity, domain grouping and stored parses hold after any sequence of batches, forced or not, and imports of any text. |
| Runs.ReachableInv | internal/db/schema.go:22-104 | Every reachable database meets the invariant. |
| Runs.RunKeepsAgreement | internal/command/portproto.go:32-70 | Along unforced batches that commit no clash, and imports of agreeing exports, every domain row's protocol is the one recorded for its port. |
| Runs.ReadCopyIsExport | internal/snapshot/snapshot.go:303-352 | A parsed export can be printed and parsed again: the saved copy is an export of the same database. |
| Runs.RebuildAfterWipe | internal/cli/boot.go:41-81 | Rebuilding an empty database from the saved copy gives the database back, port table cut to the ports in use; the copy is ignored only when there was nothing to export. |
| Runs.StoredLifetimes | internal/command/handlers/cache.go:64-112 | In a reachable database the lifetimes bound to a scope are non-negative. |
| Commands.ParsePrint | internal/command/types.go:99-134 | Parse of a printed command returns its four segments. |
| Commands.ParseIdempotent | internal/command/types.go:99-134 | Normalisation is idempotent: printing and reparsing an accepted line changes nothing. |
| Commands.ParsedIsWellFormed | internal/command/types.go:99-134 | An accepted line has blank-free type and scope and single-blank parameters. |
| Commands.PrintIsOneLine | internal/snapshot/snapshot.go:160-270 | A printed command is one trimmed line that starts with its verb segment. |
| Commands.ParseKeyValueParams | internal/command/types.go:501-519 | The loop computes the accepted key=value map, or BAD_PARAMS. |
| Commands.PairsAccepted | internal/command/types.go:501-519 | Parameters are accepted exactly when every field is a pair and no key repeats. |
| Commands.PairsContents | internal/command/types.go:501-519 | The accepted map holds exactly the pairs written. |
| Commands.ParsePrintObjectRef | internal/command/handlers/bind.go:274-283 | parseObjectRef undoes the type:name form of exported bindings. |
| Commands.ObjectRefInverse | internal/command/handlers/bind.go:274-283 | An accepted reference is its type, a colon and its name, neither empty. |
| Scopes.ParseDomainScope | internal/command/handlers/domain.go:298-337 | Accepts exactly the scopes of the expression whose ports are numbers in range without repetition, in the order written. |
| Scopes.ParsePorts | internal/command/handlers/domain.go:298-337 | The port loop with its seen map computes the port list, or refuses it. |
| Scopes.ScopeParsed | internal/command/handlers/domain.go:298-337 | An accepted scope has a known protocol, a host of host characters and distinct ports in range; it is one token. |
| Scopes.MatchParts | internal/command/handlers/domain.go:296-305 | What the scope expression matches is protocol, separator, host and, if any, the port group. |
| Scopes.ServerScopeOfCanonical | internal/nginx/generator.go:338-362 | parseServerScope undoes canonicalScope. |
| Scopes.CanonicalInjective | internal/command/handlers/domain.go:339-341 | Different endpoints have different canonical scopes. |
| Scopes.ScopeOfCanonical | internal/command/handlers/domain.go:298-341 | A canonical scope is itself an accepted display scope naming its one port. |
| Rules.ParseCache | internal/command/handlers/cache.go:309-345 | Fills the cache record from the pairs; refuses unknown keys and unreadable numbers. |
| Rules.ParseDefense | internal/command/handlers/objects.go:88-138 | Fills the defense record; refuses unknown keys, a bad action, negative amounts and an object without a criterion. |
| Rules.ParseRedirect | internal/command/handlers/objects.go:199-229 | Fills the redirect record; from and to are required, the status is 3xx. |
| Rules.ParseHeader | internal/command/handlers/objects.go:292-332 | Fills the header record; at least one operation is required. |
| Rules.ParseParams | internal/command/handlers/objects.go:349-367 | The parser of an object type from its parameter text, BAD_PARAMS when anything is refused. |
| Rules.SplitList | internal/command/handlers/objects.go:564-573 | The trimmed non-empty entries of a comma-separated list, in order. |
| Rules.NamedList | internal/command/handlers/objects.go:302-312 | Name=value entries; a later one overrides an earlier one, a nameless one is dropped. |
| Rules.AcceptedRanges | internal/command/handlers/cache.go:64-112 | An accepted write has non-negative lifetimes and amounts, a known action and a 3xx status. |
| Executor.Node.DomainWrite | internal/command/handlers/domain.go:99-167 | The port-conflict check, then one row per port; the new tables and the asked ports are the specification's. |
| Executor.Node.OwnedElsewhere | internal/command/handlers/domain.go:113-131 | The first loop finds whether another display scope owns an endpoint. |
| Executor.Node.StoreRows | internal/command/handlers/domain.go:134-156 | The second loop stores exactly one equal row per endpoint and reports each port once. |
| Executor.Node.DomainDelete | internal/command/handlers/domain.go:170-242 | Refuses foreign endpoints and bound scopes, else takes out the rows of the scope. |
| Executor.Node.DeleteRows | internal/command/handlers/domain.go:219-231 | The delete loop takes out exactly the expansion and counts zero exactly when nothing was there. |
| Executor.Node.ObjectWrite | internal/command/handlers/objects.go:370-391 | Stores the text and its parse under the type and name. |
| Executor.Node.ObjectDelete | internal/command/handlers/objects.go:394-433 | Blocked by any binding on the object, else removes it. |
| Executor.Node.BindWrite | internal/command/handlers/bind.go:78-126 | Adds the binding when object and display scope exist. |
| Executor.Node.BindDelete | internal/command/handlers/bind.go:128-159 | Removes one binding, or all of the scope for the placeholder. |
| Executor.Node.AddPeer | internal/command/handlers/internal.go:129-163 | Adds to the stored list and upserts the mirror row. |
| Executor.Node.RemovePeer | internal/command/handlers/internal.go:165-180 | Removes from the stored list and the mirror table. |
| Executor.Node.InternalWrite | internal/command/handlers/internal.go:124-222 | peer-add, peer-remove, set-bot and set-lang, with the placeholder forms. |
| Executor.Node.InternalDelete | internal/command/handlers/internal.go:224-249 | Both peer forms remove the peer; the other operations have no delete. |
| Executor.Node.TargetView | internal/command/handlers/system.go:113-156 | Moves the bot role to a known peer and forces a bump unless it is already there. |
| Executor.Node.LangView | internal/command/handlers/system.go:342-381 | Switches the language and forces a bump unless it is current. |
| Executor.Node.Dispatch | internal/command/executor.go:136-170 | Registry lookup, validation and the handler of the verb. |
| Executor.Node.EnforcePortBindings | internal/command/portproto.go:32-70 | The loop over the asked ports; a conflict stops it with the earlier rows written. |
| Executor.Node.RunCommand | internal/command/executor.go:154-180 | The handler, then the enforcement of the ports it asked for. |
| Executor.Node.RunParsed | internal/command/executor.go:127-201 | One line of the batch: its parse error, or its command. |
| Executor.Node.RunBatch | internal/command/executor.go:123-198 | The batch loop computes the left-to-right fold of its lines, with the flags beside it. |
| Executor.Node.ExecuteBatch | internal/command/executor.go:82-217 | Parse, run in one transaction, bump once, commit or roll back: the report and the whole new state are the specification's. |
| Executor.Node.ReplayOne | internal/command/executor.go:502-539 | Replays one snapshot line in force. |
| Executor.Node.Import | internal/snapshot/import.go:48-105 | Wipes four tables, replays each line counting failures, sets the header's version. |
| Executor.Node.PruneDBPeers | internal/command/executor.go:371-398 | Deletes exactly the mirror rows not kept. |
| Executor.Node.ReconcilePeers | internal/command/executor.go:347-368 | Mirror table and peers.json converge on the declaration; no declaration changes nothing. |
| Executor.Node.ApplySnapshot | internal/command/executor.go:453-496 | Parse, import, reconcile membership. |
| Executor.Node.MaybeRebuild | internal/cli/boot.go:41-81 | Rebuilds exactly when the version is not positive and a saved snapshot holds commands. |
| Executor.Node.ExportPeers | internal/snapshot/snapshot.go:160-178 | One peer-add line per row, ascending join order. |
| Executor.Node.ExportMeta | internal/snapshot/snapshot.go:180-208 | set-bot and set-lang lines for the overrides that are set. |
| Executor.Node.MinOrigin | internal/snapshot/snapshot.go:210-230 | MIN(origin) of a display scope's rows. |
| Executor.Node.ExportDomains | internal/snapshot/snapshot.go:210-230 | One line per display scope with its least origin, in display order. |
| Executor.Node.ExportRuleObjects | internal/snapshot/snapshot.go:236-252 | One line per object in type, name order. |
| Executor.Node.ExportBindings | internal/snapshot/snapshot.go:254-270 | One line per binding in column order. |
| Executor.Node.Export | internal/snapshot/snapshot.go:117-158 | The snapshot of the tables, section by section, in query order. |
| Executor.ParseBatch | internal/command/executor.go:83-103 | The first pass: every line is parsed, an empty one is BAD_FORMAT. |
| Executor.ExportDetermined | internal/snapshot/snapshot.go:117-158 | The command list is a function of the tables when join orders are distinct. |
| Orders.Listing | internal/snapshot/snapshot.go:210-270 | A query result: each row once, strictly ascending by its ORDER BY columns. |
| Orders.SortedUnique | internal/snapshot/snapshot.go:210-270 | A set has only one such listing. |
| Store.EnforceMeaning | internal/command/portproto.go:32-70 | Enforcement fails exactly on an unforced clash; on success every asked port carries its protocol; no row disappears, and only asked ports change, only in force. |
| Invariants.RunKeeps | internal/command/executor.go:143-170 | Every command, succeeding or failing, keeps referential integrity, domain grouping and stored parses. |
| Invariants.DomainWriteKeeps | internal/command/handlers/domain.go:99-167 | A domain write keeps the invariant. |
| Invariants.DomainDeleteKeeps | internal/command/handlers/domain.go:170-242 | A domain delete keeps the invariant. |
| Invariants.ObjectWriteKeeps | internal/command/handlers/objects.go:370-391 | An object write keeps the invariant. |
| Invariants.ObjectDeleteKeeps | internal/command/handlers/objects.go:394-433 | An object delete leaves no dangling binding. |
| Invariants.InternalKeeps | internal/command/handlers/internal.go:124-249 | Internal commands keep the invariant. |
| Invariants.GroupIsExpansion | internal/command/handlers/domain.go:298-341 | The rows sharing a display scope are exactly its expansion, all equal. |
| Invariants.ExpansionSize | internal/command/handlers/domain.go:133-156 | The expansion has one canonical scope per port. |
| Invariants.RunFrame | internal/command/executor.go:143-170 | No handler touches version or port table, a failed one changes nothing, a view changes nothing unless it forces a bump, and only a domain write adds rows or asks for ports. |
| Exports.GroupOfMin | internal/snapshot/snapshot.go:210-230 | MIN(origin) over a group is the one origin all its rows carry. |
| Exports.DomainsSectionForced | internal/snapshot/snapshot.go:210-230 | The domain lines, replayed in force, store exactly the rows of the displays visited and a port table of exactly their ports. |
| Exports.DomainsSectionUnforced | internal/snapshot/snapshot.go:210-230 | Over agreeing tables the same lines, unforced, change nothing. |
| Exports.ObjectsSectionRuns | internal/snapshot/snapshot.go:236-252 | The object lines restore every object with its text and parse. |
| Exports.BindingsSectionRuns | internal/snapshot/snapshot.go:254-270 | The binding lines restore every binding. |
| Exports.PeersSectionRuns | internal/snapshot/snapshot.go:160-178 | The peer lines restore every row and extend the stored list. |
| Undo.DeleteUndoesDomainWrite | internal/command/handlers/domain.go:99-242 | Deleting a domain just written on free endpoints restores every table but the port table. |
| Undo.DomainDeleteMeaning | internal/command/handlers/domain.go:170-242 | A delete succeeds exactly when no endpoint is foreign and no binding uses the scope; then no row of it is left and others stay. |
| Undo.ObjectDeleteMeaning | internal/command/handlers/objects.go:394-433 | An object delete fails exactly when a binding names the object, else removes exactly it. |
| Undo.DeleteUndoesObjectWrite | internal/command/handlers/objects.go:370-433 | Deleting a new object undoes its write. |
| Undo.BindMeaning | internal/command/handlers/bind.go:78-159 | A bind succeeds exactly when object and display exist and adds one binding; an unbind removes exactly the named ones and reports no effect exactly when none was there. |
| Undo.RemoveUndoesAdd | internal/command/handlers/internal.go:124-249 | Removing a peer just added restores the table and the stored list. |
| Undo.TargetMeaning | internal/command/handlers/system.go:113-156 | A transfer succeeds for known peers only, makes the target the effective bot node, and forces a bump exactly when the role moves. |
| Undo.LangMeaning | internal/command/handlers/system.go:342-381 | The language asked for becomes effective; a bump is forced exactly when that changes it. |
| Batches.BatchVersion | internal/command/executor.go:82-217 | The version rises by exactly one exactly when a write or delete succeeded or a bump was forced; a batch in which nothing succeeded changes nothing. |
| Batches.ExecuteKeeps | internal/command/executor.go:82-217 | Every batch keeps the invariant, mixed failures included. |
| Batches.FlagsMeaning | internal/command/executor.go:121-210 | The executor's two flags mean what they are for. |
| Batches.LineFrame | internal/command/executor.go:172-180 | Only a port clash lets a failed line leave a change, and only unforced. |
| Batches.UnforcedWriteAgrees | internal/command/portproto.go:32-70 | An unforced write whose rows were stored keeps agreement exactly when it does not clash; the clashing one has stored its rows all the same. |
| Batches.ForcedWriteAgrees | internal/command/portproto.go:32-70 | A forced write never clashes and keeps agreement exactly when the other rows on its ports use its protocol. |
| Agreement.LineClashIff | internal/command/executor.go:172-180 | A line clashes exactly when, unforced, it is a domain write that owns its endpoints on the tables before it and one of its ports is recorded there under the other protocol. |
| Agreement.BatchAgrees | internal/command/executor.go:172-207 | From any agreeing tables an unforced batch keeps agreement when nothing in it succeeds or no line of it clashes at its turn. |
| Agreement.BatchAgreesIff | internal/command/executor.go:172-207 | From a database meeting the invariant an unforced batch keeps port agreement if and only if nothing in it succeeds or every scope that clashed at its turn is deleted by a later line. |
| Agreement.UnbumpedUnchangedIff | internal/command/executor.go:173-210 | A batch over agreeing tables that does not bump the version leaves the database as it was if and only if it is forced, or no line of it would clash on the tables it starts from, or no view of it succeeds on them. |
| Agreement.ChangeImpliesBump | internal/command/executor.go:189-210 | From any database, changed tables imply a bump unless the batch has both such a line and such a view. |
| Batches.ForcedNeverClashes | internal/command/portproto.go:52-66 | Forced batches never clash. |
| Clashes.ClashCommitted | internal/command/executor.go:173-207 | Whenever a domain write clashes over agreeing tables, a listing after it in the batch commits its rows without a bump and ends agreement. |
| Clashes.ClashReachable | internal/command/executor.go:173-207 | Such a clash is reachable: a deleted domain leaves its port recorded. |
| Snapshots.Render | internal/snapshot/snapshot.go:324-336 | String builds the header lines and then one line per command. |
| Snapshots.ParseText | internal/snapshot/snapshot.go:338-352 | The parsing loop sorts lines into header, commands and blanks. |
| Snapshots.ParsePrintedSnapshot | internal/snapshot/snapshot.go:324-352 | Parsing a printed snapshot recovers its version and its command list. |
| Snapshots.HeaderLineRead | internal/snapshot/snapshot.go:89-109 | A printed header line is read back as its key and trimmed value. |
| Snapshots.DeclaredPeers | internal/snapshot/snapshot.go:281-299 | The loop collects the peer-add lines; none at all is nil. |
| Snapshots.ImportKeeps | internal/snapshot/import.go:48-105 | Importing any text keeps the invariant. |
| Snapshots.AppliedKeeps | internal/command/executor.go:453-496 | Applying any text keeps the invariant and sets the version it states. |
| Membership.ExportDeclares | internal/snapshot/snapshot.go:281-299 | The lines of an export declare exactly the exporter's peers. |
| Membership.PeerLineRead | internal/snapshot/snapshot.go:281-299 | A printed peer-add line is read back as its address and order. |
| Membership.AppliedExport | internal/command/executor.go:347-496 | After applying an export: its tables and version, its peers plus this node, and a peer file of exactly those members with this node at its old order. |
| Membership.NamedNodesAgree | internal/command/executor.go:400-451 | Two nodes an export names end with the same peer listing and default bot node. |
| Membership.SelfOrderIsLeast | internal/command/executor.go:405-416 | The order a node is kept under is the least its file stores for it, -1 when none. |
| Peers.Manager.All | internal/peers/peers.go:84-95 | An ascending permutation of the stored list by join order. |
| Peers.Manager.Add | internal/peers/peers.go:115-145 | A known address is returned unchanged, a new one goes last with the next order, an invalid one is refused. |
| Peers.Manager.Remove | internal/peers/peers.go:148-166 | The list without the address. |
| Peers.ListingStored | internal/peers/peers.go:169-173 | Overwriting the list with a listing of it keeps the listing and the default bot node. |
| Peers.Manager.BotNodeIP | internal/peers/peers.go:184-191 | The default bot node of the list. |
| Peers.AddedFacts | internal/peers/peers.go:115-145 | Adding keeps addresses distinct and gives a newcomer an order above every other. |
| Peers.RemovedFacts | internal/peers/peers.go:148-166 | Removing takes out exactly the peers with the address. |
| Peers.ByOrderSorts | internal/peers/peers.go:84-95 | The listing is ascending and a permutation of the stored list. |
| Peers.DefaultBotIsLeast | internal/peers/peers.go:184-191 | The default bot node is a member of least join order. |
| Peers.SortedMembers | internal/command/executor.go:418-431 | The members collected from a map and sorted by order and address. |
| Peers.ReconcileFile | internal/command/executor.go:400-451 | Afterwards the file lists exactly the declared members plus this node at its old order; an equal list is not rewritten. |
| Peers.ReconcileIdempotent | internal/command/executor.go:400-451 | Reconciling again with the same declaration changes nothing. |
| Peers.DeclaredNodesAgree | internal/command/executor.go:400-451 | Two declared nodes end with the same list and the same default bot node. |
| Peers.ListingUnique | internal/command/executor.go:426-431 | A membership has only one sorted listing. |
| Reupload.ParseImportFile | internal/bot/config_import.go:44-92 | Command lines, counts and malformed lines of an uploaded file. |
| Reupload.LinesAccounted | internal/bot/config_import.go:44-92 | Every line is in exactly one class and exactly the writes and deletes are executed. |
| Reupload.UploadedCommands | internal/bot/config_import.go:130-132 | An uploaded export is read as exactly its command list. |
| Reupload.ReuploadIsNoOp | internal/command/executor.go:82-217 | Executing a node's own uploaded export under port agreement fails nowhere, changes no table and raises the version by one; with nothing to execute nothing changes. |
| Reupload.BatchOfCommands | internal/command/executor.go:82-217 | A batch of printed commands that all succeed one after another succeeds line by line. |
| Mesh.Coordinator.PingOne | internal/mesh/coordinator.go:117-169 | Records the answer or the failure; triggers exactly when the answer exceeds the captured version. |
| Mesh.NotifyStartsPull | internal/mesh/coordinator.go:175-191 | A notification starts a pull exactly at an idle node it is ahead of, never at the writer, towards a version the writer has reached, and changes nothing else. |
| Mesh.Coordinator.TryStartPull | internal/cli/serve.go:636-640 | The compare-and-swap lets one pull run at a time. |
| Mesh.Coordinator.BestPeerToPull | internal/mesh/coordinator.go:195-220 | An eligible peer of least round-trip time; none exactly when none is eligible. |
| Mesh.RunConsistent | internal/cli/serve.go:635-662 | In every interleaving of batches, heartbeat passes with answers of any delay, notifications, pulls, losses and restarts in which no answer to the writer is above the version its pass began with, each node's rule tables are the writer's at the version it reports, none is ahead, and the writer never pulls. |
| Mesh.StepConsistent | internal/mesh/coordinator.go:117-282 | One step of any kind keeps that. |
| Mesh.PingConsistentIff | internal/mesh/coordinator.go:117-169 | An answer keeps it if and only if it does not make the writer pull. |
| Mesh.RunSafe | internal/cli/serve.go:635-662 | When, besides, no answer starts a pull towards a version its node already has, no pull in flight ever leads downwards. |
| Mesh.PingSafeIff | internal/mesh/coordinator.go:117-169 | In a safe cluster an answer keeps safety if and only if it is not above the captured version, or a pull is in flight, or it is above the version the node has by now. |
| Mesh.StepSafe | internal/mesh/coordinator.go:117-282 | One step of any kind, under that guard, keeps safety; versions never fall and a finished pull raises its node's version to its target or above. |
| Mesh.FreshSafe | internal/db/schema.go:22-31 | A fresh cluster is safe. |
| Mesh.VersionsRise | internal/snapshot/import.go:90-97 | Along a run under that guard no node's version falls. |
| Mesh.AppliedTables | internal/mesh/coordinator.go:273-282 | A finished pull is never the writer's and lands on the writer's tables of the version the text states. |
| Mesh.ApplySafe | internal/mesh/coordinator.go:273-282 | In a safe cluster it lands at or above its target, strictly above where the node was. |
| Mesh.BatchTables | internal/command/executor.go:189-210 | The writer's tables change only together with its version. |
| Mesh.PullsBounded | internal/cli/serve.go:635-651 | Once the writer stops, at most as many pulls finish as the nodes are versions behind. |
| Mesh.CatchUp | internal/mesh/coordinator.go:93-282 | One undisturbed pass, answer, choice, fetch and apply brings a node level with the writer. |
| Stale.StaleRound | internal/mesh/coordinator.go:93-169 | When an answer above the captured version starts a pull, the undisturbed round puts the node on the chosen peer's version and tables; it goes back exactly when that peer is behind it, and then the guard did not hold. |
| Stale.WriterFallsBack | internal/mesh/coordinator.go:93-169 | A run from a fresh cluster: the writer captures 0, commits 1 and then a domain as 2, a late answer 1 takes it back to 1, the domain is lost and its next batch makes a different version 2. |
| Policies.BuildPolicies | internal/nginx/precedence.go:131-189 | One policy per canonical scope, from the objects bound to its display scope in query order. |
| Policies.GroupByDisplay | internal/nginx/precedence.go:158-176 | The grouping keeps each display scope's bindings in query order. |
| Policies.DomainPolicy.ApplyBindings | internal/nginx/precedence.go:223-382 | Every field of the policy is the merge of the bound objects. |
| Policies.DomainPolicy.AddDefense | internal/nginx/precedence.go:297-329 | What one defense object adds to the lists, the rate limit and the body size. |
| Policies.MergeCache | internal/nginx/precedence.go:270-295 | The inner loop merges the patterns of one cache object into the rules so far. |
| Policies.ListRules | internal/nginx/precedence.go:364-373 | The collected rules sorted by precedence and pattern. |
| Policies.ListedMeaning | internal/nginx/precedence.go:261-373 | One rule per pattern, with the least lifetime, the least positive browser lifetime (0 if none) and the disjunction of HSTS. |
| Policies.CacheRulesUnique | internal/nginx/precedence.go:364-373 | That list is unique, so it depends neither on the order of the bindings nor on repetitions. |
| Policies.OrderFree | internal/nginx/precedence.go:223-382 | Any order of the bindings gives the same cache rules, the same rate limit and a body size of the same byte count. |
| Policies.GatherPermutes | internal/nginx/precedence.go:297-362 | The collected lists keep their elements under any permutation of the bindings. |
| Policies.LimitIsLeast | internal/nginx/precedence.go:314-316 | The rate limit is the least positive rate, 0 if none. |
| Policies.TightestIsLeast | internal/nginx/precedence.go:317-329 | The body size kept is one of the sizes set and of least byte count among the readable ones. |
| Policies.ComparedTrulyIff | internal/nginx/precedence.go:429-451 | A size is compared by its true byte count if and only if that fits an int64; a larger one wraps and displaces genuinely smaller limits. |
| Policies.TightestTruly | internal/nginx/precedence.go:429-451 | While every readable size fits an int64 the size kept truly is the least. |
| Policies.SortedRedirects | internal/nginx/precedence.go:375-381 | The redirects are the ones given, by rank and then longer path first. |
| Policies.PoliciesDetermined | internal/nginx/precedence.go:131-189 | Equal rule tables give equal policies. |
| Publishing.Generate | internal/nginx/generator.go:72-141 | A run stays in rendering exactly when one of the file operations there does not work, and then the live directory is untouched; a failure while swapping leaves it partly or wholly switched in the safe order; success leaves exactly the rendered files. |
| Publishing.Render | internal/nginx/generator.go:100-138 | Rendering writes the staging directory only and succeeds exactly when each of its operations works. |
| Publishing.SwapInStaged | internal/nginx/generator.go:153-202 | nginx.conf is old or wholly new, new only once every server file is; stale files go only after that; success leaves exactly the staged set. |
| Publishing.PublishServers | internal/nginx/generator.go:165-177 | The renaming loop: each live name is its old file or the whole new one. |
| Publishing.RemoveStale | internal/nginx/generator.go:188-199 | The cleaning loop removes only files the render did not produce. |
| Publishing.RenderServers | internal/nginx/generator.go:117-129 | One page per entry, a later file of the same name replacing an earlier, and the ports with a catch-all. |
| Publishing.RenderDefaults | internal/nginx/generator.go:131-138 | A default page for every port no catch-all server listens on. |
| Publishing.CollectState | internal/nginx/generator.go:223-309 | The entries of the rows that parse, each once, sorted by port and host, and the protocol table. |
| Publishing.Sanitize | internal/nginx/generator.go:458-475 | The file-name form of a host, character by character. |
| Publishing.ServerFilesCollideIff | internal/nginx/generator.go:407-475 | Two entries share a file name exactly when they share port and host, or one is the catch-all and the other a host named any. |
| Publishing.OneDefaultIff | internal/nginx/templates.go:60-77 | Under port agreement a port is rendered with exactly one default_server if and only if it does not carry both a catch-all and a host named any. |
| Publishing.ServerShownIff | internal/nginx/generator.go:407-429 | Under port agreement an entry is shown by its own file if and only if it is not a catch-all beside a host named any on its port. |
| Certificates.Covers | internal/cert/selector.go:67-89 | Subject, equal SAN or wildcard SAN. |
| Certificates.WildcardIsOneLabel | internal/cert/selector.go:75-86 | A wildcard stands for exactly one label (section 6.4.3 of RFC 6125). |
| Certificates.FilterCovering | internal/cert/selector.go:51-62 | The unexpired covering candidates, in order. |
| Certificates.SelectFor | internal/cert/selector.go:37-46 | A best usable certificate; nil exactly when none is usable. |
| Certificates.ResolveCerts | internal/nginx/generator.go:311-336 | Each https entry gets the selected certificate, or the node's self-signed one. |
| Certificates.RenewalIdentifiers | internal/cert/renew/scanner.go:137-152 | Exactly the non-empty names among subject and SANs, each once, in order. |
| Certificates.RenewalCovers | internal/cert/renew/scanner.go:137-152 | A certificate with those names covers every non-empty endpoint the old one covers. |
| Certificates.EmptyEndpoint | internal/cert/renew/scanner.go:137-152 | The empty endpoint is the exception: the names never supply it. |
| Certificates.ReplacementHoldsIff | internal/cert/selector.go:92-99 | While a usable certificate is stored no selection is self-signed, if and only if its source is LE or upload. |
| Renewal.RunOk | internal/cert/renew/worker.go:110-166 | In every interleaving the pending set is exactly the keys being sent, queued or in flight, each once, and alerts for one fingerprint are at least a day apart. |
| Renewal.StepExact | internal/cert/renew/worker.go:110-166 | Each step of an enqueuer or a worker keeps the pending set exact. |
| Renewal.JobsDistinct | internal/cert/renew/worker.go:151-166 | No two workers hold the same key. |
| Renewal.StampOk | internal/cert/renew/worker.go:268-287 | The unlocked load and store of the throttle keep alerts spaced. |
| Renewal.StepWork | internal/cert/renew/worker.go:169-287 | Every step but an offer removes work. |
| Renewal.NoWorkIff | internal/cert/renew/worker.go:126-166 | No work is left exactly when nothing is being sent, queued or in flight. |
| Renewal.WorkIsFinite | internal/cert/renew/worker.go:169-287 | n offers to a pool at rest are followed by at most 39 n further steps. |
| Renewal.WorkBounded | internal/cert/renew/worker.go:169-287 | From any state the further steps are bounded by the work there was and 39 for each offer. |
| Renewal.Worker.Enqueue | internal/cert/renew/worker.go:110-124 | Reserves the key and sends, or drops task and key when the queue is full. |
| Renewal.Worker.Dispatch | internal/cert/renew/worker.go:151-166 | Runs one queued step and releases its key; at most one task of strictly lower rank is enqueued. |
| Renewal.Worker.StepRenew | internal/cert/renew/worker.go:169-217 | A failed or impossible renewal enqueues the search for a replacement; a certificate issued is stored, unless the store refuses it, which ends the chain. |
| Renewal.Worker.StepFindReplacement | internal/cert/renew/worker.go:220-265 | Whatever the store listed before: no replacement in it enqueues the alert; a vanished certificate ends the search. |
| Renewal.Worker.StepAlertAdmin | internal/cert/renew/worker.go:268-287 | Alerts unless the last one for the fingerprint is less than a day old. |
| Renewal.FindReplacementFor | internal/cert/renew/worker.go:233-249 | A non-self covering certificate that expires later, of latest expiry; none exactly when none exists. |
| Renewal.ReplacementLasts | internal/cert/renew/worker.go:220-265 | Once a replacement of a known source is found, until it expires no selection for the identifier is self-signed. |
| Renewal.Worker.AddCert | internal/cert/store.go:124-184 | A fingerprint already stored keeps its certificate. |
| Renewal.Worker.Scan | internal/cert/renew/scanner.go:77-131 | Offers the renewal tasks of the due certificates, in order. |
| Renewal.ScanOffersExactly | internal/cert/renew/scanner.go:77-131 | The tasks are exactly those of the selected certificates about to expire and not expired for over thirty days. |
| Renewal.ScanKeepsNames | internal/cert/renew/scanner.go:111-125 | Every due certificate is offered with names that cover all it covers. |
| Logs.RunAccounted | internal/logs/collector.go:71-155 | However appends, passes and crashes interleave, the offset is a line boundary and the rows from the latest cutoff on are exactly the one-shot aggregate of the lines before it. |
| Logs.CompletedPass | internal/logs/collector.go:71-155 | After a completed pass all complete lines are consumed, nothing older than the cutoff is left, and the table is the one-shot aggregate from the cutoff on. |
| Logs.CollectOnce | internal/logs/collector.go:71-122 | One pass, stopping anywhere. |
| Logs.ReadLines | internal/logs/collector.go:101-113 | The reading loop aggregates the complete lines and leaves a partial one. |
| Logs.Accumulate | internal/logs/collector.go:124-143 | One line counted in its bucket; malformed ones are skipped. |
| Logs.AggregateMeaning | internal/logs/collector.go:124-143 | A row exists for exactly the buckets some line falls in and holds their number and bytes. |
| Logs.AggregateAppend | internal/logs/store.go:105-135 | Aggregating in parts and adding is aggregating at once. |
| Logs.Store.Commit | internal/logs/store.go:105-135 | Every delta is added to its row and the offset moves. |
| Logs.ShorterLogFromTop | internal/logs/collector.go:84-122 | After the reset for a log shorter than the stored offset every complete line of it is counted once on top of the old rows, and a crash right after the reset changes nothing of that. |
| Logs.Store.Prune | internal/logs/store.go:145-153 | Exactly the rows before the minute go. |
| Logs.HitsConserved | internal/logs/collector.go:124-143 | The hits stored since a minute are the lines counted since it. |
| Logs.StatusBreakdown | internal/logs/store.go:157-184 | One row per status, ascending, with the sums of its buckets. |
| Logs.TopDomains | internal/logs/store.go:187-204 | Domains by hits, highest first, cut at the limit. |
| Logs.QueriesAgree | internal/logs/store.go:157-204 | Status and domain totals of one moment agree with the lines counted. |

## Left out

- SQLite itself, SQL text, I/O errors of the database and of peers.json, per-row config_version and updated_at; tables are maps and a transaction is a copy that is restored on rollback.
- The JSON text of parsed_json: an object stores the parsed record, and encoding and decoding are taken to be inverse.
- Bytes against code points: strings are sequences of code points, so malformed UTF-8 and byte lengths beyond ASCII are not modelled (the 80-character cut of malformed upload lines counts characters).
- The messages of errors and effects, cache purging, nginx reload and validation, peer notification and the saved snapshot file as side effects of a batch.
- The ssl, sslfile, ai, upgrade, confirm, status, nodes, stats, sync, help, menu and export commands, and the text of all views.
- Regular-expression engines and the ReDoS heuristic; the scope and origin expressions are character predicates.
- Ties under an unstable sort: equal join orders and equal round-trip times are listed in one fixed order, or left open by the contract.
- Integer overflow of join orders, log hit and byte counters, and of the version in SQLite.
- HTTP, TLS, tokens and JSON of the mesh protocol; messages are values that may be lost or late.
- Clusters with several writers: equal versions with different content are not reconciled by the original.
- Handshake and join of a new node, program upgrade, event forwarding, Telegram, AI and menus.
- ACME, X.509, PEM and DNS: a certificate is its fingerprint, subject, SANs, source and expiry; issuing succeeds or not.
- The scanner's callback for selected endpoints: the selected fingerprints are given.
- A process restart of the renewal worker, which forgets its queue and its alert times.
- A log replaced by one at least as long as the stored offset, which the original does not notice; a shorter one is read from the top by `Logs.CollectOnce`, but the run theorem is for append-only logs.
- Headers added by several bound objects: a later binding overrides an earlier one, so order independence is not claimed for them.
- The nginx text of a page: a page is the entry and policy it was rendered from, its port and its default_server mark.
- Snapshots.HeaderLineRead: the header record is updated as a value, not in place.
- Reupload.ParseImportFile: the confirmation summary shown to the user is not modelled.
- Membership.AppliedExport: a bot or language override that was cleared on the exporter does not replicate, as in the original, so those fields are the exporter's only when set.
- Runs.ExportIsFaithful: says nothing about port rows no domain uses, which an export does not carry.
- Mesh.CatchUp: progress is claimed through pings only, because a notification does not record the notifier's version.
