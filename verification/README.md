# Verified models of the account store, its bulk creation, and two log tools

This project models four pieces of the repository and proves what they promise.

- **The account query builder and its eager loader** (`backend/ent/account_query.go`, with the row scanner of
  `backend/ent/account.go`). `Pipeline.dfy` says what the database does for one query: filter, deduplicate, order, and
  cut a window; and when a window over a batch does to every key what a window over that key's rows would do.
  `EagerLoad.dfy` gives the meaning of a tree of queries twice: as the batches the loader asks for, and as evaluating
  every edge query for every row alone; it proves that they build the same graph where windows are harmless and group
  orders separate. `EagerExact.dfy` proves that these conditions are exact, and has the stores and queries that break
  them. `EagerLaws.dfy` adds the laws of selected columns, of graphs up to group order, of conservation, and of limits.
  `EagerRuns.dfy` says what a run leaves in the builder, when it fails, and what the next run does. `Loaders.dfy` and
  `AccountQuery.dfy` are the code itself: builders with fields that their methods overwrite, loops that regroup
  neighbours through maps, accounts whose edges are filled in place. Their methods are proved against those meanings.
- **Bulk creation** (`backend/ent/account_create.go`). `AccountWrite.dfy` models defaults, checks and the insert
  specification, and `AccountRow.dfy` the scan buffers and column decoding; together they give the row round trip.
  `AccountBulk.dfy` models the chain of mutators under hooks that stop, or edit, pass a mutation on and map the outcome,
  on values and on the heap.
- **The audit exception gate** (`tools/check_pnpm_audit_exceptions.py`): `AuditExceptions.dfy` for the line reader,
  `AuditGate.dfy` for the verdict, `PyText.dfy` for the string operations both use.
- **Redaction and summary counts** (`tools/analyze_interception_logs.py`): `Redaction.dfy` and `Summary.dfy`.

`dafny verify dfyconfig.toml` checks the whole project.

## Where the code falls short of a plausible promise

Each of these is stated by a lemma or a contract below.

- A limit or an offset on an edge query is shared by the whole batch, so it does not bound each account's neighbours
  (`LimitIsShared`). `EdgeWindowIff` says for one edge query, and `AlikeIff` for a whole tree, exactly when the batch
  still gives every account what its own query would; `LimitBreaksBatching` is a consistent store and a query for which
  it does not.
- The groups of an account come in the order of the whole batch, which need not be the order its own query would give.
  For a given groups table the two agree, whatever the accounts and memberships, exactly if the group order separates
  the groups that the query can return (`GroupOrderIff`); without a window they always agree up to order.
- Loading a groups edge leaves a join in the group query. When the same builder runs again, its rows have the earlier
  join's column where the group's id is expected, and the source's type assertion panics on the first row. So after a
  run that succeeded the next one fails exactly if some groups edge returns a join row again (`RunAgain`,
  `RunGroupsTwice`). Where no group query carries an offset, that is exactly if some groups edge returned a join row the
  first time, and otherwise no later run fails (`RunsForEver`); with an offset it can happen although none did
  (`OffsetReloads`).
- `IDs`, `FirstID`, `OnlyID` and `Exist` add the id to the builder's selected fields, so they fail on a builder with
  selected fields, and on their own second call.
- `IDs` takes a limit or an offset of zero literally, while `All` takes it as unset (`IdsAgreeWithAll`).
- In bulk creation the check is on the mutation the builder holds, not on the one a hook passes on, so nothing that a
  mutation no builder holds contains can stop its being written (`ReplacementIsUnchecked`).
- Hooks that report a success that did not happen break the order in which builders finish: `SuffixIff` says exactly for
  which builders, hooks and mutations. `SaveUnderLyingHook` is a save that returns accounts without asking the database.
- The audit gate looks only at the first high or critical entry of a key, so entry order decides when one key carries
  two severities of different fate (`OrderMattersExactly`).

## Model

| member | source | states |
|---|---|---|
| Pipeline.SortSorts | backend/ent/account_query.go:972-978 | ordering rearranges the matching rows into order and loses none |
| Pipeline.SelectSort | backend/ent/account_query.go:958-978 | restricting an ordered result is ordering the restricted rows, whatever the order terms |
| Pipeline.SelectDedup | backend/ent/account_query.go:936-940 | restricting deduplicated rows is deduplicating the restricted rows |
| Pipeline.BatchedKey | backend/ent/account_query.go:779 | picking one key out of an unwindowed batched IN query gives exactly the query for that key |
| Pipeline.WindowIff | backend/ent/account_query.go:966-971 | for any batch of distinct rows, any offset and limit: every key's part of the windowed batch is the window of that key's rows alone exactly if the window is harmless: unset, before it all rows lie, none exceeds the limit, or one key fills it and no other key exceeds the offset |
| Pipeline.HarmlessCases | backend/ent/account_query.go:966-971 | for a limit alone harmless means that the rows fit into it or carry one key, for an offset alone that they lie before it or carry one key, and for rows of different keys that they lie before the offset or fit into a limit without one |
| EagerLoad.RowsAreTableRows | backend/ent/account_query.go:933-980 | a query returns table rows, each once, also after a traversal |
| EagerLoad.EdgeRowsAreTableRows | backend/ent/account_query.go:763-812 | an edge query returns distinct table rows whose key is among the requested ones |
| EagerLoad.FirstKeysIn | backend/ent/account_query.go:764-775 | the collected foreign keys are the non-nil keys of the nodes, each once |
| EagerLoad.GroupsAreExact | backend/ent/account_query.go:697-729 | for any join rows, an account gets exactly the groups joined to it, each once, by first appearance in the join rows; a repeated join row adds nothing |
| EagerLoad.GroupsOfIsNaive | backend/ent/account_query.go:670-730 | for join rows sorted by an order that separates their groups, an account's share of the batch is what its own join rows give |
| EagerLoad.BatchReordersGroups | backend/ent/account_query.go:712-728 | an account joined to any two groups gets them the other way round from its own join rows if an account before it in the batch is joined to the second one |
| EagerLoad.BatchIsNaive | backend/ent/account_query.go:586-827 | for any table, any rows and any tree of edge queries whose windows are harmless to the batches they cut and whose group orders separate the groups they can return, batched loading builds the graph of naive per-row loading at every depth |
| EagerLoad.UnwindowedIsNaive | backend/ent/account_query.go:586-827 | in particular for any tree of edge queries without a limit or an offset |
| EagerLoad.AllIsNaive | backend/ent/account_query.go:331-338 | the same for the rows the query itself returns |
| EagerLaws.HarmlessIsAlike | backend/ent/account_query.go:586-827 | for any group order, harmless windows make the two graphs the same up to the order of each account's groups |
| EagerLaws.BatchAlikeNaive | backend/ent/account_query.go:586-827 | in particular for any edge queries without a limit or an offset |
| EagerExact.AlikeIff | backend/ent/account_query.go:586-827 | for every load that succeeds, any tree and any windows: batched and naive loading build the same graph up to the order of groups exactly if every window in the tree is harmless to the batch it cuts |
| EagerExact.EdgeWindowIff | backend/ent/account_query.go:763-827 | for any edge query and requested keys, the batch gives every key what its own query returns exactly if the window is harmless: with a limit alone, if the matching rows fit into it or have one key; with an offset alone, if they lie before it or have one key; for the parent edge, if they lie before the offset or fit into a limit without one |
| EagerExact.GroupOrderIff | backend/ent/account_query.go:670-730 | for an unwindowed group query and any groups table: every account of every batch, whatever the accounts and memberships, gets its groups in the order of its own query exactly if the group order separates the groups the query can return |
| EagerLaws.ColumnsSelected | backend/ent/account_query.go:941-957 | for any chosen fields the id is selected first and only once, every chosen field is selected, and so is each to-one edge's foreign key, and nothing else |
| EagerLaws.ChildKeySelected | backend/ent/account_query.go:805-807 | the children's foreign key is selected whatever fields the edge query chose |
| EagerLaws.DecodedKeys | backend/ent/account.go:209-440 | a decoded account carries its row's id, and its foreign keys wherever they are selected |
| EagerRuns.RunAgain | backend/ent/account_query.go:331-338 | after a run that succeeded, the next run of the same builder fails exactly if a groups edge anywhere in the tree returns join rows again, and otherwise means the same |
| EagerRuns.RunsAreAlike | backend/ent/account_query.go:763-827 | any number of further runs that succeed return what the first did, although each adds an IN predicate, and perhaps a join, to the edge queries, and also when parent links form cycles |
| EagerRuns.RunsForEver | backend/ent/account_query.go:683-713 | where no group query carries an offset: the second run fails exactly if some groups edge of the first one returned a join row, and otherwise no later run ever fails |
| EagerRuns.ReloadsWhatLoads | backend/ent/account_query.go:683-692 | a groups edge that returned a join row returns one again; without offsets only such a one does |
| EagerRuns.JoinsAgain | backend/ent/account_query.go:683-692 | with one more join, a group query matches at least as many rows for the same accounts |
| EagerExact.OffsetReloads | backend/ent/account_query.go:683-692 | with an offset of two, a groups edge that returned no join row on the first run fails the second one |
| EagerExact.GroupsRunOnce | backend/ent/account_query.go:683-713 | one account in one group: the first run returns the group, and the groups edge returns a join row again |
| EagerLaws.ChildrenAreConserved | backend/ent/account_query.go:813-826 | with distinct ids, the child lists together hold every returned neighbour exactly once |
| EagerLaws.ChildEdgeIsConserved | backend/ent/account_query.go:795-827 | the same for the rows of a children edge query, whatever its window |
| EagerLaws.LimitIsShared | backend/ent/account_query.go:966-971 | with a limit on the children edge, all accounts together get at most that many children |
| EagerExact.LimitBreaksBatching | backend/ent/account_query.go:795-827 | a consistent store and a run that succeeds: with a limit of one child the batch leaves the second account without its child, which naive loading finds |
| Loaders.GroupByRef | backend/ent/account_query.go:764-775 | ids are the distinct non-nil keys in order of first appearance, and each maps to exactly its nodes in order |
| Loaders.GroupsPartition | backend/ent/account_query.go:764-775 | the groups together hold every node with a key exactly once, and no other node |
| Loaders.AssignParents | backend/ent/account_query.go:784-792 | fails exactly on a neighbour nobody asked for; otherwise every node links to the last neighbour with its key and no other node is touched, even with repeated node ids |
| Loaders.AssignProxies | backend/ent/account_query.go:752-760 | the same for proxies |
| Loaders.IndexById | backend/ent/account_query.go:796-804 | the map by id holds the last node of each id, and every node's children are cleared |
| Loaders.AssignChildren | backend/ent/account_query.go:813-826 | fails exactly on a nil or unrequested key; otherwise the last node of each id gets the neighbours with its key, in order |
| Loaders.PositionsOf | backend/ent/account_query.go:693-713 | on a first load positions 0 and 1 of a row are the account's and the group's id and the rest decodes to the group; after any earlier load position 1 has the buffer of an unknown column |
| Loaders.ScanJoins | backend/ent/account_query.go:693-713 | the rows scanned by column, with one join column per load so far: fails exactly if a row arrives after an earlier load; otherwise the groups in order of first appearance, and for every group the set of nodes joined to it |
| Loaders.AssignGroups | backend/ent/account_query.go:720-729 | fails exactly on a group no join row mentioned; otherwise every node gets the groups joined to it, whatever the order a node set is visited in |
| Loaders.LoadGroups | backend/ent/account_query.go:670-730 | for any query and nodes: fails exactly if the query was loaded as a groups edge before and returns a join row; otherwise the last node of each id gets exactly the groups joined to it, and the unexpected-node error does not occur |
| Loaders.LoadProxy | backend/ent/account_query.go:731-762 | every node gets the last returned proxy with its key; the unexpected-key error does not occur |
| Loaders.ScanRows | backend/ent/account_query.go:599-609 | one account per returned row, in order, decoded; fails exactly on malformed JSON in a selected column |
| Loaders.NeighbourQuery.All | backend/ent/account_query.go:331-338 | a neighbour query returns its table's rows as fresh nodes and keeps its interceptors' predicates |
| AccountQueries.AccountQuery.constructor | backend/ent/account_query.go:27-43 | a fresh builder with nothing set |
| AccountQueries.AccountQuery.Where | backend/ent/account_query.go:46-49 | appends predicates and changes nothing else in the tree |
| AccountQueries.AccountQuery.Order | backend/ent/account_query.go:71-74 | appends order terms and changes nothing else in the tree |
| AccountQueries.AccountQuery.Select | backend/ent/account_query.go:547-553 | appends selected fields and changes nothing else in the tree |
| AccountQueries.AccountQuery.Lock | backend/ent/account_query.go:1020-1042 | appends a modifier, and on Postgres turns DISTINCT off |
| AccountQueries.AccountQuery.WithGroups | backend/ent/account_query.go:437-444 | replaces the groups edge query, keeping the builder tree a tree |
| AccountQueries.AccountQuery.WithParent | backend/ent/account_query.go:459-466 | replaces the parent edge query, keeping the builder tree a tree |
| AccountQueries.AccountQuery.WithChildren | backend/ent/account_query.go:470-477 | replaces the children edge query, keeping the builder tree a tree |
| AccountQueries.AccountQuery.Clone | backend/ent/account_query.go:412-433 | for any tree: fresh builders all the way down, disjoint from the original, of the same value and without modifiers |
| AccountQueries.CloneIsIndependent | backend/ent/account_query.go:46-74 | later changes to the clone leave the original as it was, and the other way round |
| AccountQueries.AccountQuery.AppendFieldOnce | backend/ent/account_query.go:805-807 | adds the foreign key to an explicit selection that lacks it, and only then |
| AccountQueries.AccountQuery.PrepareQuery | backend/ent/account_query.go:560-584 | keeps the interceptors' predicates, and fails exactly on an invalid field |
| AccountQueries.AccountQuery.QueryNodes | backend/ent/account_query.go:586-619 | fresh accounts, one per selected row in order, carrying the keys the loaders need |
| AccountQueries.LoadParent | backend/ent/account_query.go:763-794 | every node links to the loaded graph of the last parent with its key; fails exactly when the edge query that runs names an invalid field or reloads a groups edge on join rows somewhere |
| AccountQueries.LoadChildren | backend/ent/account_query.go:795-827 | the last node of each id gets the loaded graphs of its neighbours, in order; the nil-key and unexpected-key errors do not occur |
| AccountQueries.AccountQuery.LoadEdges | backend/ent/account_query.go:620-644 | after all edges have loaded, every node has the edges of its row, and the builder tree holds exactly the predicates and joins the runs added |
| AccountQueries.AccountQuery.SqlAll | backend/ent/account_query.go:586-668 | the heap graph it builds is the batched meaning of the query on the selected rows; it terminates by the depth of the builder tree |
| AccountQueries.AccountQuery.All | backend/ent/account_query.go:331-338 | the fresh graph it returns is the batched meaning of the builder's value, the builder is left as the meaning says, and it fails exactly on an invalid field in a query that runs or a groups edge loaded again on join rows |
| AccountQueries.AllRefinesNaive | backend/ent/account_query.go:331-338 | under harmless windows and separating group orders the heap graph is the one naive per-row loading describes |
| AccountQueries.RunTwice | backend/ent/account_query.go:331-338 | for any builder: after a first run that succeeds, the second fails exactly if a groups edge returns join rows again, and otherwise builds a disjoint graph of the same meaning |
| AccountQueries.RunGroupsTwice | backend/ent/account_query.go:683-713 | a builder with a groups edge on a store with one account in one group: the first run returns the account with its group, the second one fails |
| AccountQueries.LimitKeeps | backend/ent/account_query.go:966-971 | with a limit, a query returns that prefix of the rows after offset and distinct |
| AccountQueries.AccountQuery.First | backend/ent/account_query.go:232-241 | the first row after offset and distinct, loaded, whatever limit was set before; not found exactly if there is none |
| AccountQueries.AccountQuery.Only | backend/ent/account_query.go:278-291 | the row if there is exactly one after offset and distinct, not found for none, not singular for more, whatever limit was set before |
| AccountQueries.AccountQuery.IDs | backend/ent/account_query.go:350-359 | the ids of the selector's rows, distinct after a traversal as in `All`; works exactly on a builder without selected fields, to which it adds the id |
| AccountQueries.IdsAgreeWithAll | backend/ent/account_query.go:933-1013 | `IDs` and `All` see the same rows exactly unless a limit of zero cuts rows off or an offset of zero caps an unlimited result |
| AccountQueries.AccountQuery.FirstID | backend/ent/account_query.go:254-264 | the id of the first row after offset and distinct, or not found |
| AccountQueries.AccountQuery.OnlyID | backend/ent/account_query.go:305-319 | the only id, none, or more than one, as the full result has it |
| AccountQueries.AccountQuery.Exist | backend/ent/account_query.go:389-399 | true exactly if the full result after offset and distinct is not empty |
| AccountRow.ScanValues | backend/ent/account.go:184-205 | one buffer per column, of the column's kind |
| AccountRow.Account.AssignValues | backend/ent/account.go:209-440 | the fields and the error of decoding the values column by column |
| AccountRow.BufferIsAccepted | backend/ent/account.go:184-440 | a buffer `scanValues` allocates is the one `assignValues` expects; only malformed JSON is rejected; no other field changes |
| AccountRow.RowIsAccepted | backend/ent/account.go:209-440 | for any column list, a typed row is decoded without error exactly when no selected JSON column is malformed |
| AccountRow.RowIsDecoded | backend/ent/account.go:209-440 | each selected field is decoded from its own cell, NULL leaves it, and unlisted fields keep their values |
| AccountWrite.CreateSpec | backend/ent/account_create.go:702-927 | the account and the insert specification of a mutation |
| AccountWrite.NodeGets | backend/ent/account_create.go:702-927 | the returned account holds the mutation's values and foreign keys, and zero values elsewhere |
| AccountWrite.TablesAgree | backend/ent/account_create.go:702-927 | column by column, the stored value of a set field fills the scan buffer of its column and decodes to itself |
| AccountWrite.RowRoundTrip | backend/ent/account_create.go:702-927 | decoding the full row written for a mutation into a fresh account gives the account `createSpec` returned, under its id |
| AccountWrite.CheckDecides | backend/ent/account_create.go:608-682 | a mutation passes exactly when the required columns are set and the validated ones are valid |
| AccountWrite.DefaultsLeaveThreeRequired | backend/ent/account_create.go:547-682 | after the defaults, only name, platform and type can be missing, and the check passes exactly when these were set and the validated columns are valid |
| AccountWrite.FailedDefaultsAreRejected | backend/ent/account_create.go:547-605 | when a default is not initialised, the check rejects the mutation: ignoring the error in bulk is harmless |
| BulkCreate.AccountCreate.FillDefaults | backend/ent/account_create.go:547-605 | fills the unset columns up to the first default that is not initialised |
| BulkCreate.Wrap | backend/ent/account_create.go:2213-2215 | wrapping from the last hook to the first makes the hooks, outermost first, the list as given: hooks[0] is outermost |
| BulkCreate.AccountCreateBulk.Mutate | backend/ent/account_create.go:2180-2215 | a mutator under its hooks changes the heap as the chain on values says |
| BulkCreate.AccountCreateBulk.MutateSelf | backend/ent/account_create.go:2180-2212 | the builder's own mutator: the type, the check of the held mutation, its slot, the rest of the chain, id and flag |
| BulkCreate.AccountCreateBulk.Save | backend/ent/account_create.go:2171-2228 | the final heap and the returned accounts are those of the chain on values, from empty slots and filled-in defaults; nothing changes if the bulk builder already failed |
| BulkCreate.RunFollows | backend/ent/account_create.go:2180-2212 | for any hooks of this kind, a run finishes builders, reports and writes as its checks, each on what the builder holds when it is reached, and its one insert determine; the insert gets the specifications of the mutations passed on |
| BulkCreate.WritesExactly | backend/ent/account_create.go:2184-2197 | for any hooks of this kind and any mutations: the write happens exactly if every hook calls next and every builder's mutator, with what its builder then holds, accepts; it happens once |
| BulkCreate.SaveWritesExactly | backend/ent/account_create.go:2171-2228 | the same for a whole save |
| BulkCreate.AgreesIff | backend/ent/account_create.go:2182-2189 | with distinct builders, a builder's mutator accepts exactly if it is called with an account mutation and the mutation the builder has held from the start, as edited by then, passes its check |
| BulkCreate.OneFullWrite | backend/ent/account_create.go:2190-2196 | for any hooks of this kind, at most one batch write, of one specification per builder, in builder order, with no slot empty |
| BulkCreate.PlainWrites | backend/ent/account_create.go:2180-2212 | in closed form where hooks pass their mutation on and builders share none: the write happens exactly if every hook calls next and every edited mutation passes its check, and gets exactly the specifications of the edited mutations |
| BulkCreate.SaveFinishesSuffix | backend/ent/account_create.go:2171-2228 | where no called hook stack claims a success that did not happen, the builders finish from the last one back and form a suffix, only after the insert succeeded, and all of them if the save succeeds |
| BulkCreate.SuffixIff | backend/ent/account_create.go:2178-2227 | for any builders, hooks of this kind, validators and mutations: the finished builders form a suffix for every answer of the database exactly if no builder after the first whose mutator is called has hooks that report a success that did not happen |
| BulkCreate.SuccessWithoutWrite | backend/ent/account_create.go:2190-2209 | two builders, the second under a hook that reports a success without calling next: the save succeeds, the first builder finishes alone, and nothing is written |
| BulkCreate.SaveUnderLyingHook | backend/ent/account_create.go:2171-2228 | such a save on the heap, with builders and mutations of its own: it returns accounts, and the database was never asked |
| BulkCreate.AllOrNoneIff | backend/ent/account_create.go:2178-2227 | for any builders, hooks of this kind, validators and mutations: all builders finish or none does, for every answer of the database, exactly if no called hook stack after the first claims a success that did not happen and none turns a success into an error once all accept |
| BulkCreate.FinishedAreFlagged | backend/ent/account_create.go:2202-2208 | for any hooks of this kind and distinct builders, flags stay set and every builder that finished holds a flagged mutation |
| BulkCreate.PlainFlags | backend/ent/account_create.go:2202-2208 | for hooks that pass their mutation on, a mutation is flagged exactly if its builder finished, and no other mutation is touched |
| BulkCreate.FlagsFormSuffix | backend/ent/account_create.go:2178-2227 | where no called hook stack claims a success that did not happen and hooks pass their mutation on, the flagged builders are exactly a suffix |
| BulkCreate.ReplacementIsUnchecked | backend/ent/account_create.go:2185-2189 | for any number of distinct builders and hooks of this kind: the content of a mutation that no builder holds decides neither whether the write happens nor which mutations are written; passed on by the first builder's hook, it is written whatever it contains |
| BulkCreate.PlainSuccess | backend/ent/account_create.go:2180-2212 | when all checks pass and the insert succeeds, one write, every builder finished, and every slot holds its account under its row's id |
| BulkCreate.BulkRoundTrip | backend/ent/account_create.go:2171-2228 | the account returned for each builder is what reading its stored row back gives |
| AuditExceptions.ParseExceptions | tools/check_pnpm_audit_exceptions.py:23-48 | the loop over raw lines computes the fold of the line reader over the text's lines |
| AuditExceptions.ParseRaisesExactly | tools/check_pnpm_audit_exceptions.py:34-42 | reading raises exactly when some item line has content without a colon |
| AuditExceptions.ParseUndoesRender | tools/check_pnpm_audit_exceptions.py:12-48 | reading undoes the canonical rendering of any list of non-empty records with admissible keys and values without line breaks |
| AuditExceptions.ParseIsProduced | tools/check_pnpm_audit_exceptions.py:12-48 | whatever the text, records are non-empty with trimmed, colon-free keys |
| AuditGate.FindingsAreSources | tools/check_pnpm_audit_exceptions.py:51-111 | the findings are exactly the advisories' and the vulnerabilities' usable via entries, with their identifiers |
| AuditGate.BuildIndex | tools/check_pnpm_audit_exceptions.py:153-185 | no error exactly if every exception is complete, dated and not blank with distinct normalised keys; the errors name each other exception's first fault in list order, and the index holds under each key the first exception that stands for it |
| AuditGate.CheckFindings | tools/check_pnpm_audit_exceptions.py:187-219 | on an admissible list, no error exactly if the first considered finding of every key is covered; missing, expired and other complaints list exactly the findings at fault, in order |
| AuditGate.Decide | tools/check_pnpm_audit_exceptions.py:151-243 | returns 0 exactly on the declarative condition; the errors are those of the list, then the complaints, then missing, then expired |
| AuditGate.Run | tools/check_pnpm_audit_exceptions.py:142-243 | the same from the text of the list; an unreadable list raises before any verdict |
| AuditGate.OrderMattersExactly | tools/check_pnpm_audit_exceptions.py:191-219 | rearranging or repeating findings can change the verdict exactly when every key has a covered finding but some finding is not covered |
| AuditGate.OrderIsIrrelevant | tools/check_pnpm_audit_exceptions.py:191-219 | with one severity per key, neither order nor repetition changes the verdict |
| PyText.StripTrims | tools/check_pnpm_audit_exceptions.py:15-20 | stripping leaves no outer white space and only removes white space |
| Redaction.MatchHereIsLongestPrefix | tools/analyze_interception_logs.py:31 | the scanner matches exactly when a prefix is in the token language, and takes the longest such prefix |
| Redaction.SubstituteLeavesNoToken | tools/analyze_interception_logs.py:38-39 | no match of the token pattern is left anywhere, also across replacement boundaries |
| Redaction.SubstituteFixpoint | tools/analyze_interception_logs.py:38-39 | substitution is the identity exactly on text without a token |
| Redaction.RedactCleans | tools/analyze_interception_logs.py:37-47 | the result is clean at every value position, with the keys, list lengths and nesting of the input outside sensitive keys |
| Redaction.RedactFixpoint | tools/analyze_interception_logs.py:37-47 | redaction is the identity exactly on clean values |
| Redaction.RedactIsIdempotent | tools/analyze_interception_logs.py:37-47 | redacting twice is redacting once |
| Summary.CounterTotal | tools/analyze_interception_logs.py:136 | multiplicities sum to the number of items, each key counted as often as it occurs |
| Summary.Distribution | tools/analyze_interception_logs.py:235 | the multiplicity distribution re-sums to the unique and the total count |
| Summary.GapsConserveDuration | tools/analyze_interception_logs.py:200-208 | the adjacent gaps of the sorted times are non-negative and sum to the duration from earliest to latest |
| Summary.OccursIffContained | tools/analyze_interception_logs.py:195-196 | a keyword is counted exactly when it occurs as a substring |
| Summary.HitsBounds | tools/analyze_interception_logs.py:193-198 | hits never exceed bodies or occurrences, and are zero together with them |
| Summary.Summarise | tools/analyze_interception_logs.py:129-221 | one pass over the rows computes the counters, gaps and duration of the report |
| Summary.SummaryConserves | tools/analyze_interception_logs.py:159-221 | for any log, counts conserve the rows, statuses partition them, the complete ones are the fingerprinted bodies, and duplicates are never negative |
| Summary.StatusesAddUp | tools/analyze_interception_logs.py:169-175 | the three body statuses partition the rows |
| Summary.FingerprintSeesRetainedColumns | tools/analyze_interception_logs.py:113-120 | rows agree on every retained column once redacted exactly if their redacted payloads are equal; so they have the same fingerprint, and others only where the digest of two different payloads collides |

## Left out

What the models assume:

- `sqlgraph`, `sql.ScanSlice` and the driver are not part of this repository. The model takes a query to filter,
  deduplicate, order and window the rows of a table; a query specification's zero limit or offset to be unset, and its
  offset to force a limit of 2147483647; a stored row to be NULL where nothing was set; a to-one edge to write its
  foreign key; a repeated join to pair every row with each membership of its group once more, its column in front of
  the others; scanning ids to fail unless there is one column; a batch insert to succeed with an optional id per row or
  to fail.
- DISTINCT compares whole rows. On a table with a primary key this is what comparing the selected columns does, because
  the id is always selected. Ties in an ORDER BY come in source order.
- SQL text, driver errors, transactions, context values and cancellation, and row locks beyond recording the modifier.
- Integer widths, time zones and fractions of seconds; numbers are unbounded and times are integers.

What is weaker than the code or covers less:

- EagerExact.AlikeIff: takes the join table to hold no pair twice, and compares groups as multisets; GroupOrderIff says when their order agrees as well.
- EagerExact.GroupOrderIff: for group queries without a window that have not been loaded before; on a query loaded before, a load with join rows fails.
- Loaders.ScanJoins: the panic of the source's type assertion is an error value; a group's columns are an id and opaque data.
- AccountQueries.AccountQuery.All: interceptors are traversers that add predicates; ones that wrap or replace the querier, or are nil, are not modelled. The builder's value after an error is not described.
- AccountQueries.AccountQuery.Clone: the traversal function is shared by the clone, as in the source; changes it makes to the builder it came from are not modelled, and neither is the intermediate selector.
- AccountQueries.AccountQuery.WithParent: takes the edge query ready-made in place of option functions, and asks that it share no builder with the tree, as a newly made query does.
- Loaders.NeighbourQuery.All: proxies and groups are an id and opaque data, without selected fields or edges of their own.
- AccountRow.RowIsAccepted: rows whose cells do not fit their column's type are outside it; JSON text is abstracted to empty, null, an object, or malformed.
- AccountWrite.CheckDecides: which column fails and how is modelled, error texts are not; field validators are a parameter.
- BulkCreate.RunFollows: a hook calls next at most once and is a value: stop with a verdict, or edit the mutation it gets, pass one on, and map the outcome. A hook that looks at the mutation to choose between these, edits another one, or edits after next returned, is not modelled.
- BulkCreate.PlainWrites: hooks that replace the mutation, and builders that share one, are outside its closed form; WritesExactly, RunFollows and FinishedAreFlagged cover them.
- BulkCreate.AccountCreateBulk.Save: an account under construction is a value in its slot, so the sharing of its id field with the mutation is a slot number.
- AuditGate.Run: the report is decoded already and titles and messages are left out; a severity that is not text, which the source would fail on, does not occur. Date parsing and today's date are parameters.
- PyText.StripTrims: lower-casing, beside it, is that of ASCII letters.
- Summary.Summarise: keywords come deduplicated and not empty, as `main` makes them; counters by phase, model, agent, address, error and status code, prompt decisions, body sizes, medians and ratios are left out, because they add nothing but more of the same counting.
- Summary.FingerprintSeesRetainedColumns: JSON encoding and SHA-256 are one function, of which nothing is assumed.

What is not modelled:

- The usage-log, account-admin and account-group edges, `Count`, `GroupBy` and `Aggregate`: the loaders repeat those of children and parent, the rest only assembles SQL.
- Which edges an account marks as loaded, and the difference between a nil and an empty edge list.
- Updates, deletes, upserts, single creates and the generated builders of other entities.
- Reading CSV, XLSX, JSON and arguments, and writing reports.
- The gateway, scheduler, lease and billing behaviour that the repository's documentation describes.
