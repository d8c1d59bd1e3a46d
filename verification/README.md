# Semantic layer: a verified model

A Dafny model of two parts of the semantic layer, with proofs about every input and every run.

**The query compiler** turns a compiled model, a request and an identity into one governed SQL statement.
The model gives the plan an abstract syntax (scan, join, filter, group, distinct, CTE join) and a relational
meaning over finite tables, for any meaning of scalar expressions, aggregates, operators and row-filter
predicates (`Terms.Sem`). Where the source works on bytes — predicates, scalars, claim templates — so does
the model; a `char` stands for one byte.

**The MySQL wire codec** of the vendored driver splits, stamps, compresses, buffers and reassembles packets
and interpolates placeholders. The largest packet size is a symbolic constant `M` below 2^24 (the driver's is
2^24 - 1), and every array, window and counter that the driver updates in place is updated in place here.

A third part is the **serving path**: request limits, the plan cache and the result cache.

| file | what it models |
|---|---|
| `JoinGraph`, `Routes`, `Nearest`, `JoinTree`, `Cycle` | relationships as a graph; routes and their order; root choice, breadth-first search and pruning; the cycle check |
| `Seqs`, `Relational`, `Terms` | tables, joins and keys; terms, filters and the WHERE clause |
| `SideQuery`, `Composite`, `Build` | flat, side and composite queries with their meaning; the inline/split partition |
| `FanOut`, `Returns`, `Meaning` | what fan-out and a dropped DISTINCT can change, exactly; one database with the wrong numbers; a built plan's answer |
| `Lexer`, `Predicate`, `PredParser`, `Claims`, `Templates`, `Readers`, `Scanners`, `Written`, `FilterText` | the predicate tokenizer, grammar and parser; claim templates, and how StarRocks reads them; the column and reference scanners; the row filter that runs |
| `Governance`, `Authorize`, `RowAccess`, `PlannedRows`, `Digest`, `Keys` | roles, policies, decisions; the rows planned queries keep under other roles; identity digest and cache keys |
| `Serving`, `Service` | limits, fresh plans, and the service over its two caches |
| `Wire`, `Buffer`, `Zipped`, `Conn`, `Transfer`, `LongData` | packets, read buffer, compression layer, the connection, both ends together, long data |
| `Reading`, `Escape`, `Interpolate`, `Literals`, `Placeholders`, `Params`, `Inert` | how the server reads a literal, literals in a reserved buffer, the placeholder scanner, what each literal means and where it stands, the substitution loop, inertness |
| `Decimals`, `Strings`, `Options`, `Fields` | shared vocabulary |

## What the source turned out not to promise

Each of these is kept as the code has it, with an input that shows it and the exact condition.

- A metric that is no ratio is never checked for fan-out. `Returns.RevenueInflated`: revenue asked for with refunds
  reads 15 where the sales add up to 10. `FanOut.OncePerRowIff`: a column of the single pass is taken once per row,
  on every sound database, iff the term passes the planner's own test at the final root, is DISTINCT, or its
  aggregate does not notice repeats.
- An inlined ratio is checked against the root of its turn. `Returns.RootCanMove` is a request in which a later
  metric moves the root, and `Returns.MovedMarginWrong` the wrong quotient; `Build.InlinedRatioSafeIff`: the ratio
  stays safe exactly when its root still reaches everything required in the end.
- The deduplicating side query drops DISTINCT. `Returns.DistinctSumDoubled`: SUM(DISTINCT price) answers 10 for 5.
  `FanOut.DistinctKeptIff`: a side computes what the metric asks for, on every sound database, iff the term is not
  DISTINCT, the side is planned in one pass, or the aggregate does not notice repeats (as MAX does not). It is kept
  after all for engines that read the term as the single primary-key column (`FanOut.KeyColumnKeepsDistinct`).
- A split metric requested twice gives two CTEs of one name: `Returns.PlanRateTwice` plans one; the names are
  distinct iff no split metric is repeated (`Composite.CteNamesDistinct`).
- The validator does not read a backslash in a literal as an escape; StarRocks does. `Readers.BackslashParts` is an
  accepted template whose claim StarRocks finds outside the author's literal. `Readers.EnginesAgreeIff`: the two
  agree whatever the claims hold iff they agree on the validated text, and so whenever the author wrote no backslash.
- A payload that starts out of sequence is refused, except when it is an error message or its length is a
  multiple of the packet size, because the empty packet that ends it skips the check: `Wire.OutOfStepRefused`.
- More roles can mean less. A comment promises the union of the rows the roles allow. Of a given joined row that is so
  (`RowAccess.MoreRolesAdmitMore`, `RowAccess.AdmissionKeptIff`), but a role's row filters also decide what is
  joined. `PlannedRows.AuditorsLoseSale`: staff who become auditors too lose a sale nobody returned, because the
  auditors' filter joins the returns, INNER, and makes them the root. `PlannedRows.KeepsRowsIff`: between two sets of
  filter groups a planned query keeps every row, on every sound database and for every engine, iff each old group has
  a new one that asks for no more, the root has not moved, and every join added is LEFT; with roles added, iff the root
  has not moved and every join added is LEFT (`PlannedRows.MoreRolesKeepRowsIff`). A filter on a dataset that does not
  connect makes the request fail altogether (`PlannedRows.UnrelatedFilterFails`; exactly when:
  `PlannedRows.AnsweredInFullIff`), and so does one that needs a claim the caller lacks (`RowAccess.UnheldClaimFails`;
  exactly when: `RowAccess.ExpandableIff`). Before any filter, an identity without roles loses the default role when it
  is given one (`RowAccess.DefaultRoleReplaced`; exactly when something is refused: `RowAccess.NothingRefusedIff`).
- An expired token can be answered from the cache. `Service.ExpiredIsServed`: what was stored for a caller is served to
  it again although the engine would now refuse it. `Service.Server.Query`: without a hit the answer is the uncached
  one, and with one it is the answer to an accepted token of the same engine user.
- A literal is put where the question mark was, and the text after it is not looked at. `Placeholders.SideBySideMerge`:
  two strings at `??` are read as one with a quote in between. `Placeholders.ArgumentReads`: the server reads just the
  argument iff no quote follows a quoted literal and nothing that goes on with a number or NULL follows that.
- The scanner lets the star that opens a comment close it too, so it takes `/*/` for a whole comment
  (`Placeholders.CutIsGaps` over `Placeholders.BlockLen`).
- The comment on the identity key says it does not depend on token order. That holds of the digest and of every
  governed model; without a governance spec the role key in front follows token order (`Keys.TwoOrdersTwoKeys`;
  exactly when: `Keys.KeyIgnoresOrderIff`).
- The error message of the cycle check asks for a tree; diamonds are accepted (`Cycle.DiamondAccepted`).

## Model

| member | source | states |
|---|---|---|
| `JoinTree.Discover` | internal/planner/plan_sql.go:54-72 | The loop computes the breadth-first search defined turn by turn; every dataset is found over the first of all routes to it, in the order of these routes, and no edge leaves the visited set unfollowed. |
| `JoinTree.VisitedIsReachable` | internal/planner/plan_sql.go:54-72 | A dataset is visited exactly when a path of relationships leads to it from the root. |
| `JoinTree.BfsByFirstRoutes` | internal/planner/plan_sql.go:54-72 | The search finds every dataset over the shortest route, ties broken by relationship order at the first difference, and lists its edges in the order of these routes. |
| `Nearest.EarlierIsPlaced` | internal/planner/plan_sql.go:58-71 | At every moment of the search, whatever an earlier route leads to has been found. |
| `Routes.FirstIsShortest` | internal/planner/plan_sql.go:58-72 | A first route is no longer than any path. |
| `JoinTree.PruneKeepsChains` | internal/planner/plan_sql.go:73-90 | Pruning leaves the chains of joins to what it keeps, and their order, as they were. |
| `JoinTree.PruneIsTree` | internal/planner/plan_sql.go:73-90 | Pruning keeps a tree: each join starts at the root or an earlier target, no target repeats, every leaf is required. |
| `JoinTree.WalkedIsPrune` | internal/planner/plan_sql.go:73-89 | The edges marked by walking parents, in any order of the required datasets, are those of the pruned tree. |
| `JoinTree.Walk` | internal/planner/plan_sql.go:78-82 | Walking parent edges terminates at the root and marks just what the dataset needs. |
| `JoinTree.Reach` | internal/planner/plan_sql.go:54-91 | Succeeds exactly when the root reaches every required dataset, and then returns a pruned, ordered join tree in which the chain of joins to each dataset is the first of all routes from the root: no path is shorter, and among those of its length none is earlier in spec order. |
| `JoinTree.FindJoinTree` | internal/planner/plan_sql.go:26-50 | Fails exactly when nothing is required or no dataset reaches everything required; else the first covering candidate is the root of a join tree. |
| `JoinTree.RequiredRootPreferred` | internal/planner/plan_sql.go:30-42 | If a required dataset covers the others, the chosen root is required. |
| `JoinTree.RequiredRootUnique` | internal/planner/plan_sql.go:22-42 | In an acyclic graph at most one required dataset covers all of them. |
| `JoinTree.RootIndependentOfOrder` | internal/planner/plan_sql.go:30-42 | In an acyclic graph the root does not depend on the order of datasets. |
| `JoinTree.RootStable` | internal/planner/plan_sql.go:26-50 | A required root stays the root for every larger requirement set it reaches. |
| `Cycle.EdgesOf` | internal/ossie/validate.go:68-87 | The adjacency lists hold exactly the relationships' edges. |
| `Cycle.Finder.Dfs` | internal/ossie/validate.go:277-293 | From a white node, either a path along edges that closes on itself, or the node is finished and the path restored; terminates by the white nodes. |
| `Cycle.FindCycle` | internal/ossie/validate.go:268-302 | Reports nothing exactly when the relationship graph is acyclic, in any iteration order; a report follows edges and ends at a node already on it. |
| `Cycle.DiamondAccepted` | internal/ossie/validate.go:88-90 | Two ways to one dataset are no cycle, although the message asks for a tree. |
| `Relational.OneRowAtMost` | internal/planner/plan_sql.go:272-290 | Joins on keys of their one side turn a row into at most one row, exactly one if all are LEFT. |
| `Relational.RootRowsOnce` | internal/planner/plan_sql.go:272-290 | The joined rows that pass any condition are, in order, the root's linked rows, each as often as the root table has it; at most one joined row a root row, exactly one under LEFT joins. |
| `Relational.FromShape` | internal/planner/plan_sql.go:272-290 | Every joined row binds exactly the tree's aliases, from their tables, never null-extended under INNER joins. |
| `Terms.WhereClauses` | internal/planner/plan_sql.go:240-269 | Fails exactly on an unsupported filter or a row filter outside the tree; otherwise a row passes iff the user filters hold and some group's whole filter set does. |
| `Terms.WhereMeaning` | internal/planner/plan_sql.go:248-268 | The rendered disjunction of conjunctions means that, for every engine and row. |
| `SideQuery.DirectOnRoot` | internal/planner/plan_sql.go:357-387 | One pass over a tree rooted at the measure dataset aggregates each linked root row once. |
| `SideQuery.DirectCountDistinct` | internal/planner/plan.go:422-432 | COUNT DISTINCT of one dataset, in one pass, has the once-per-row reference value, whatever the join multiplicity. |
| `SideQuery.DirectDistinctIgnoresRepeats` | internal/planner/plan.go:422-432 | A DISTINCT aggregate over any number of datasets is the same over any two FROM clauses that join the same rows, however often each. |
| `SideQuery.DedupValue` | internal/planner/plan_sql.go:388-449 | SELECT DISTINCT on primary key, dimensions and value, then grouping, aggregates each linked measure row once. |
| `SideQuery.DedupKeys` | internal/planner/plan_sql.go:416-449 | Deduplication keeps exactly the groups of the joined rows. |
| `SideQuery.PlanSide` | internal/planner/plan_sql.go:357-449 | Plans exactly the sides that are plannable, over a pruned join tree of what they require, in one pass iff that is safe at its root; every row-filter dataset is in the tree. |
| `SideQuery.SideIsOncePerRow` | internal/planner/plan_sql.go:357-449 | Whichever plan is chosen that keeps the term's DISTINCT: one row a group, holding the metric's aggregate over the measure rows linked to it, each taken once. |
| `FanOut.DistinctKeptIff` | internal/planner/plan_sql.go:388-449 | For every engine with a given aggregate, a side keeps its DISTINCT on every sound database iff the term is plain, the plan is one pass, or the aggregate ignores repeats among the values a group can hold. |
| `FanOut.DistinctKeptByKey` | internal/planner/plan_sql.go:388-449 | Whatever the aggregate, deduplication keeps DISTINCT on a database where the term's values tell the primary keys apart. |
| `FanOut.KeyColumnKeepsDistinct` | internal/planner/plan_sql.go:388-449 | So it does on every sound database for an engine that reads the term as the single primary-key column. |
| `FanOut.OncePerRowIff` | internal/planner/plan.go:355-379 | A term over one dataset in the single pass is taken once per row on every sound database iff the planner's test holds at the final root, it is DISTINCT, or the aggregate ignores repeats. |
| `Returns.DistinctSumDoubled` | internal/planner/plan_sql.go:444-449 | A planned side and a database on which SUM(DISTINCT) answers 10 for 5. |
| `Returns.RevenueInflated` | internal/planner/plan.go:359-364 | A planned single pass in which a sum that is no ratio reads 15 for 10. |
| `Returns.MovedMarginWrong` | internal/planner/plan.go:366-381 | The inlined ratio of a moved root divides 6 by 15 where its sides are 5 and 10. |
| `Returns.PlanRateTwice` | internal/planner/plan_sql.go:454-484 | Planning one split ratio twice gives four CTEs with two names. |
| `Composite.PlanFlat` | internal/planner/plan_sql.go:300-355 | Plans the flat query exactly when its datasets connect and its filters are supported. |
| `Composite.InlineTermOncePerRow` | internal/planner/plan.go:366-381 | An inlined term found safe aggregates each surviving root row once. |
| `Composite.SideKeyed` | internal/planner/plan_sql.go:565-585 | A side's CTE has one row a dimension tuple. |
| `Composite.FlatKeyed` | internal/planner/plan_sql.go:565-585 | So has the base CTE. |
| `Composite.JoinAligns` | internal/planner/plan_sql.go:485-520 | Joining keyed tables on null-safe equality of the dimensions aligns them by key. |
| `Composite.OneRowPerKey` | internal/planner/plan_sql.go:454-542 | One joined tuple for each dimension tuple present in every CTE; exactly one when there are no dimensions. |
| `Composite.PlanComposite` | internal/planner/plan_sql.go:454-542 | Plans a base query and two sides a split ratio, in order, exactly when all of them can be planned. |
| `Composite.CteNamesDistinct` | internal/planner/plan_sql.go:454-484 | CTE names are distinct iff no split metric is requested twice. |
| `Composite.AnswerMeaning` | internal/planner/plan_sql.go:486-542 | The outer SELECT gives one row for each common dimension tuple that passes the metric filters, with the requested metrics' own values. |
| `Composite.CompositeMeaning` | internal/planner/plan_sql.go:454-542 | The same for the query that is planned, over its CTEs as they evaluate. |
| `Composite.BaseCell` | internal/planner/plan_sql.go:459-470 | A base column is its inline metric's value for the row's dimension tuple. |
| `Composite.SideCell` | internal/planner/plan_sql.go:471-484 | A num or den column is its side's value for that tuple. |
| `Composite.SplitColumnOncePerRow` | internal/planner/plan_sql.go:454-542 | A split ratio's column is the quotient of its sides' once-per-row aggregates, DISTINCT where the metric says so and the plan keeps it. |
| `Meaning.RatioColumn` | internal/planner/plan.go:339-406 | Whatever BuildPlan returns, on a database that keeps the declared keys: one row for each group that everything it reads from has and whose metrics pass the metric filters, and no other; in each, a requested ratio is the quotient of its sides, by NULL where the denominator is zero, each aggregated once per linked row under the request's joins and conditions. |
| `Meaning.FlatReturns` | internal/planner/plan_sql.go:300-355 | The single pass returns a dimension tuple iff some joined row that passes shows it, grained fields truncated to the requested grain, or there are no dimensions, and its HAVING holds. |
| `Meaning.RowShowsGrain` | internal/planner/plan_sql.go:114-123 | Every row of a built plan shows, in each grained column, the field of a joined row that passes truncated to the request's grain, and in each other column the field itself; in every table the plan reads. |
| `Meaning.SameGrainOneRow` | internal/planner/plan_sql.go:300-355 | Joined rows that show the same after truncation fall into one row. |
| `Meaning.CompositePlanReturns` | internal/planner/plan_sql.go:454-542 | A composite plan returns a dimension tuple, once, iff each of its tables has joined rows for it and the metrics' values pass the metric filters; the columns are the requested metrics' values. |
| `Build.Partition` | internal/planner/plan.go:355-381 | Inlines a metric iff it is no ratio or both sides are safe at the root of that moment, and grows the requirement set accordingly. |
| `Build.PartitionConserves` | internal/planner/plan.go:355-381 | No metric is lost or repeated. |
| `Build.NoSplitAllInline` | internal/planner/plan.go:394-399 | Without splits, the flat query holds every metric in request order. |
| `Build.InlineRefsBound` | internal/planner/plan.go:359-379 | Every dataset an inline metric references is bound by the FROM clause. |
| `Build.BuildPlan` | internal/planner/plan.go:339-406 | Succeeds exactly when the flat or the composite query can be planned, and returns that plan. |
| `Build.InlinedRatioSafeIff` | internal/planner/plan.go:366-381 | An inlined root-bound term is safe in the final tree iff its root reaches the final requirement set. |
| `Returns.RootCanMove` | internal/planner/plan.go:366-381 | A request whose inlined ratio becomes unsafe when the next metric moves the root. |
| `Lexer.Tokenize` | internal/planner/expr/predicate.go:58-150 | The index loop computes the token list defined by structural recursion, with the same errors. |
| `Lexer.Next` | internal/planner/expr/predicate.go:61-147 | One turn of its switch reads exactly the first lexeme. |
| `Lexer.ScanNumber` | internal/planner/expr/predicate.go:152-180 | Reads the longest number, and rejects a bare, trailing or second point. |
| `Lexer.ScanString` | internal/planner/expr/predicate.go:79-104 | Reads a literal with doubled quotes, or fails when it is not closed. |
| `Predicate.ParseTokens` | internal/planner/expr/predicate.go:30-44 | Sound: an accepted token list is what its AST prints. |
| `Predicate.OrComplete` | internal/planner/expr/predicate.go:193-204 | Complete: a printed disjunction is read back as that AST. |
| `Predicate.AndComplete` | internal/planner/expr/predicate.go:206-217 | The same for conjunctions. |
| `Predicate.PrimaryComplete` | internal/planner/expr/predicate.go:226-239 | The same for parentheses and comparisons. |
| `Predicate.RhsComplete` | internal/planner/expr/predicate.go:241-287 | The same for operators, IN, IS NULL and LIKE. |
| `Predicate.ParseTokensIff` | internal/planner/expr/predicate.go:17-51 | A token list parses to an AST iff the AST prints it, so the grammar is unambiguous. |
| `Predicate.AcceptedColumns` | internal/planner/expr/predicate.go:241-262 | In an accepted list the column tokens are exactly the AST's columns, and none is called. |
| `PredParser.Parser.OrRule` | internal/planner/expr/predicate.go:193-204 | The position-moving rule succeeds iff the functional parser does, stops where it stops, and adds exactly its columns; peek stays inside. |
| `PredParser.Parser.AndRule` | internal/planner/expr/predicate.go:206-217 | The same. |
| `PredParser.Parser.NotRule` | internal/planner/expr/predicate.go:219-224 | The same. |
| `PredParser.Parser.PrimaryRule` | internal/planner/expr/predicate.go:226-239 | The same. |
| `PredParser.Parser.Comparison` | internal/planner/expr/predicate.go:241-262 | The same. |
| `PredParser.Parser.RightSide` | internal/planner/expr/predicate.go:253-287 | The same, position only. |
| `PredParser.Parser.InList` | internal/planner/expr/predicate.go:289-308 | The same, position only. |
| `PredParser.ParsePredicate` | internal/planner/expr/predicate.go:30-51 | Accepts exactly the predicates of the grammar and returns their columns once each, ascending. |
| `PredParser.ParsedIff` | internal/planner/expr/predicate.go:17-51 | A text is accepted as an AST iff it tokenizes to what the AST prints. |
| `PredParser.OrColsNonEmpty` | internal/planner/expr/predicate.go:43-45 | Every predicate names a column, so the error for none cannot occur. |
| `Claims.TokensAgree` | internal/governance/governance.go:351-376 | Validated and expanded text have the same tokens up to string contents, unless a placeholder stands inside a literal. |
| `Claims.AcceptedNotTorn` | internal/governance/governance.go:462-469 | In an accepted predicate no placeholder stands inside a literal. |
| `Claims.ParseOrSimilar` | internal/planner/expr/predicate.go:193-330 | The parser does not look at string contents. |
| `Claims.ExpandedIsSamePredicate` | internal/governance/governance.go:351-376 | Whatever validation accepted, the expansion for any claims under either dialect is a predicate with the same columns and the same tokens up to string contents; it fails exactly on a missing claim. |
| `Templates.PlaceholderExpands` | internal/governance/governance.go:339-376 | A placeholder is found in the text and becomes the caller's claim as a literal, or the filter fails without it. |
| `FilterText.FilterReads` | internal/planner/plan_sql.go:251-260 | What runs for an accepted filter, claims expanded and columns qualified, is the validated columns in order, each under the alias, between unchanged stretches of the expanded text. |
| `FilterText.GroupsRead` | internal/planner/plan.go:323-337 | So is every filter of every group a plan is built with, on the dataset it was declared for. |
| `Readers.EscapedReadsBack` | internal/emitter/starrocks/starrocks.go:32-33 | A claim's literal, read by its dialect, backslash escapes included, gives the claim and ends at its own closing quote. |
| `Readers.EnginesAgreeIff` | internal/governance/governance.go:351-376 | StarRocks finds the literals of an accepted template where the validator found them, whatever the claims hold, iff it does so on the validated text. |
| `Readers.NoBackslashAgrees` | internal/governance/governance.go:462-469 | So it does whenever the author wrote no backslash. |
| `Readers.BackslashParts` | internal/planner/expr/predicate.go:79-104 | An accepted template with a backslash whose claim the validator reads inside a literal and StarRocks outside. |
| `Scanners.QualifyBareColumns` | internal/planner/expr/expr.go:344-395 | The scanner's loop computes the qualification defined span by span. |
| `Scanners.RewriteRefs` | internal/planner/expr/expr.go:297-338 | The rewriter's own loop computes the rewriting defined span by span, unclosed literals included. |
| `Scanners.ScanRefs` | internal/planner/expr/expr.go:235-288 | The extractor's own loop rejects exactly scalars with a bare word; else it returns the first occurrences of the references the rewriter visits. |
| `Written.WrittenVisited` | internal/planner/expr/expr.go:235-288 | A scalar written from references and the text between them is read back as these references, in order. |
| `Scanners.RewriteIdentity` | internal/planner/expr/expr.go:297-338 | Rewriting every reference to its own text changes nothing. |
| `Scanners.RewriteInterleaves` | internal/planner/expr/expr.go:297-338 | For every rendering the output is the visited references' renderings, each occurrence in order, between gaps that do not depend on the rendering. |
| `Scanners.RecolumnedIdentity` | internal/planner/expr/expr.go:344-395 | Replacing every column by itself changes nothing, so all other bytes are copied. |
| `Scanners.QualifyIsRecolumned` | internal/planner/expr/expr.go:344-395 | On any predicate that tokenizes with no called column, the qualifier replaces exactly the column tokens. |
| `Scanners.QualifyAccepted` | internal/planner/expr/expr.go:344-395 | On any accepted predicate it qualifies exactly the reported columns and copies every other byte. |
| `Governance.PolicyRoles` | internal/governance/governance.go:49-65 | The non-empty names of groups and roles, first occurrences in order. |
| `Governance.SortPolicies` | internal/governance/governance.go:162-175 | Roles end up sorted and their policies in step. |
| `Governance.Visible` | internal/governance/governance.go:116-158 | Refuses on a bad pattern of a granting role, or when none grants; else lists the granting roles, ascending, each with its policy. |
| `Authorize.Authorizing` | internal/governance/governance.go:235-258 | Exactly the policies in which some pattern matches each metric and no denied field is one of the request's. |
| `Authorize.Authorize` | internal/governance/governance.go:267-298 | The decision for the set of role names: granted iff some role alone permits everything, with one filter group a granting role, or none if one of them is unfiltered. |
| `RowAccess.DecisionUnique` | internal/governance/governance.go:160-175 | The decision is determined by the set of role names. |
| `RowAccess.AuthorizedIff` | internal/governance/governance.go:235-279 | Granted iff one policy, the first of a name the identity goes by, has by itself a pattern that matches each metric and denies none of the fields; the answer's roles are all such; a bad pattern of any policy that counts refuses. Roles are not pooled. |
| `RowAccess.ClerkRefused` | internal/governance/governance.go:238-244 | A policy that allows orders grants orders and refuses a metric no pattern matches. |
| `RowAccess.ExpandGroups` | internal/planner/plan.go:323-337 | Expands every filter in place, and fails exactly on an unknown dataset or a missing claim. |
| `RowAccess.DecisionAdmits` | internal/governance/governance.go:281-291 | A planned query admits a row iff the user filters hold and the whole filter set of some granting role does. |
| `RowAccess.MoreRolesAdmitMore` | internal/governance/governance.go:281-291 | When every effective role stays effective, no grant is revoked, and the new filters admit each joined row the old ones did. |
| `RowAccess.NothingRefusedIff` | internal/governance/governance.go:120-135 | Whatever the policies say, no request loses its grant, nor a joined row its admission, iff every effective role stays effective, identities without roles included. |
| `RowAccess.AdmissionKeptIff` | internal/planner/plan_sql.go:248-268 | Of the same joined rows, no engine admits fewer under other filter groups iff each old group has a new one that asks for no more. |
| `PlannedRows.KeepsRowsIff` | internal/planner/plan_sql.go:240-290 | Between two planned queries that differ in their filter groups: every row of the old one has, on every sound database and for every engine, a row of the new one over the same row of the old root and equal on every dataset both join, iff each old group has a new one that asks for no more, the root is the same, and every join added is LEFT. |
| `PlannedRows.AnsweredInFullIff` | internal/planner/plan.go:349-353 | A request stays answered with all its rows iff what the new filters require still connects and the query then planned meets that condition. |
| `PlannedRows.MoreRolesKeepRowsIff` | internal/governance/governance.go:281-291 | When roles are added, a planned query keeps its rows iff the root is the same and every join added is LEFT. |
| `PlannedRows.AuditorsLoseSale` | internal/planner/plan.go:349-353 | An added role's filter moves the root and joins INNER: a sale the first role's own filter admits is gone. |
| `PlannedRows.UnrelatedFilterFails` | internal/planner/plan_sql.go:26-50 | A filter on a dataset nothing relates leaves the request without a join path. |
| `PlannedRows.PlannedKeeps` | internal/planner/plan_sql.go:54-91 | The join tree of a root is, in order, the edges of one search from that root that lead into its own datasets. |
| `RowAccess.OtherRoleChangesNothing` | internal/governance/governance.go:235-298 | A role that does not permit the request by itself changes nothing. |
| `RowAccess.ExpandableIff` | internal/planner/plan.go:324-335 | When a decision's filters can be expanded, exactly. |
| `RowAccess.UnheldClaimFails` | internal/planner/plan.go:324-335 | A request answered for one role and, once a role is added whose filter names a claim, answered iff the caller carries that claim. |
| `RowAccess.DefaultRoleReplaced` | internal/governance/governance.go:122-125 | An identity without roles loses the default role when it gains one. |
| `Keys.KeyIgnoresOrderIff` | internal/governance/governance.go:378-395 | One identity in two orders has one key iff the model is governed or the role names render alike in both. |
| `Keys.TwoOrdersTwoKeys` | internal/governance/governance.go:116-120 | Ungoverned, two roles in either order give two keys. |
| `Digest.CompactInPlace` | internal/governance/governance.go:436-444 | The in-place compaction leaves the ascending listing of the array's elements. |
| `Digest.SortedUniqueCopy` | internal/governance/governance.go:431-445 | The one ascending listing of the elements. |
| `Digest.EncodeInjective` | internal/governance/governance.go:402-405 | The length-prefixed stream is uniquely decodable. |
| `Digest.DigestStream` | internal/governance/governance.go:400-423 | Writes the stream of the identity, whatever order the claim map gives. |
| `Digest.StreamIdentifies` | internal/governance/governance.go:397-423 | Streams are equal iff principal, group set, role set and claims are. |
| `Keys.PlanKeyInjective` | internal/cache/cache.go:60-66 | Plan keys are equal only for the same dialect, model, version, request hash and decision. |
| `Keys.ResultTextScope` | internal/cache/cache.go:72-79 | For one query, what a result key hashes is equal only for the same decision and engine user, whatever bytes the query holds. |
| `Keys.CommentTellsHash` | internal/planner/plan.go:383-386 | Two query texts of one model and version that agree carry one request hash, whatever follows the comment. |
| `Keys.IdentityKey` | internal/governance/governance.go:389-395 | Computes the role key and digest of the identity. |
| `Keys.IdentityKeyTells` | internal/governance/governance.go:378-395 | Equal keys mean the same identity. |
| `Keys.KeyCoversDecision` | internal/planner/plan.go:317-384 | Callers with equal keys are authorized alike: role key, filter groups and claims agree. |
| `Serving.Limits.WithDefaults` | internal/serving/limits.go:103-141 | Every limit ends up positive, one that is set is kept, one that is not takes its default, and a cache entry's is cut to a result's. |
| `Serving.Limits.Apply` | internal/serving/limits.go:143-175 | Succeeds exactly when metrics, dimensions, filters, values and rows are within the limits in force, and changes only a missing row limit. |
| `Serving.SameKeySamePlan` | internal/serving/service.go:281-292 | Callers with the same identity key get the same plan, but for the external decision recorded in it. |
| `Serving.SameTextSamePlan` | internal/serving/service.go:333-342 | Two plans of one model whose result keys hash one text are one plan, for one engine user. |
| `Serving.PlanHit` | internal/serving/service.go:285-291 | A sound cache entry under the request's key is the plan compiling would give. |
| `Serving.ResultHit` | internal/serving/service.go:333-361 | A sound result entry is what the engine gives this caller, with an accepted token, for this compiled query, whatever bytes it holds, and small enough to serve. |
| `Service.Server.Plan` | internal/serving/service.go:257-301 | Hit or miss, the plan of a fresh compilation; both caches stay sound. |
| `Service.Server.Query` | internal/serving/service.go:305-405 | Both caches stay sound; without a hit the answer is the one without caches, with one it is that for an accepted token of the same engine user; a result that may be stored is. |
| `Service.ExpiredIsServed` | internal/serving/service.go:340-361 | A result stored for a caller is served to it again when the engine rejects its token and the uncached answer is an error. |
| `Service.Server.Expire` | internal/cache/cache.go:82-94 | Losing any entries keeps both caches sound. |
| `Service.AnswerUnique` | internal/serving/service.go:305-405 | The same question has the same answer whenever it is asked. |
| `Service.AnswersWithinLimits` | internal/serving/service.go:257-405 | What is served is within the result limit, and a request out of bounds or denied by the external authorizer is not planned. |
| `Service.DefaultIsComplete` | internal/serving/service.go:321-380 | A request without a limit is answered only with all rows its query stands for, at most the default number, even where the client could not hold the unlimited result; it is called incomplete exactly when the limited query comes back and there are more. |
| `Service.DefaultSharesEntry` | internal/serving/limits.go:165-173 | Such a request shares its entry with one for the default and one more row. |
| `Wire.Uint24RoundTrip` | internal/starrocks/mysqldriver/utils.go:495-499 | A stored length reads back modulo 2^24. |
| `Wire.FrameLayout` | internal/starrocks/mysqldriver/packets.go:126-173 | A packet is its body's length in three bytes, least significant first, the sequence number, and the body. |
| `Wire.FramesRead` | internal/starrocks/mysqldriver/packets.go:41-123 | What reading a payload's packets comes to, for every expected sequence number. |
| `Wire.FramesReadBack` | internal/starrocks/mysqldriver/packets.go:41-175 | Reading a payload's packets gives the payload, exact multiples of M included, and equal sequence numbers. |
| `Wire.OutOfStepRefused` | internal/starrocks/mysqldriver/packets.go:66-118 | Exactly which payloads that start out of sequence are refused. |
| `Wire.NumberedRead` | internal/starrocks/mysqldriver/packets.go:41-123 | What reading a payload comes to whatever sequence numbers its packets bear: a later packet out of step is refused at once, and on a compressed connection numbers do not matter. |
| `Wire.EmptyPayloadRefused` | internal/starrocks/mysqldriver/packets.go:81-89 | A lone empty packet is refused. |
| `Wire.SeqAdvance` | internal/starrocks/mysqldriver/packets.go:137-173 | A payload takes one packet more than the full ones in it, each advancing the sequence number modulo 256. |
| `Buffer.ReadBuffer.Fill` | internal/starrocks/mysqldriver/buffer.go:51-90 | However the network fragments its bytes, none is lost, repeated or reordered; fails exactly when too few are left. |
| `Buffer.ReadBuffer.ReadNext` | internal/starrocks/mysqldriver/buffer.go:94-98 | Takes the next bytes off the buffered ones. |
| `Zipped.OpenSealed` | internal/starrocks/mysqldriver/compress.go:97-145 | A compressed packet is read back whole, both lengths fitting 24 bits. |
| `Zipped.SealedLayout` | internal/starrocks/mysqldriver/compress.go:196-213 | A compressed packet is the length it carries, the sequence number, the length before compression or zero, and the body, lengths least significant byte first. |
| `Zipped.PackUnpack` | internal/starrocks/mysqldriver/compress.go:163-182 | Deflated or stored, a chunk is recovered, and neither length exceeds the chunk's. |
| `Zipped.SqueezeInflates` | internal/starrocks/mysqldriver/compress.go:87-213 | Compression is transparent across any number and mix of chunks, and the compressed sequence numbers agree. |
| `Zipped.PacketRoundTrip` | internal/starrocks/mysqldriver/packets.go:41-175 | With or without compression, reading what is sent gives the payload, what follows it, and the same counters. |
| `Conn.Connection.ReadCompressedPacket` | internal/starrocks/mysqldriver/compress.go:97-145 | Appends what the next compressed packet carries, or fails exactly when it is incomplete or malformed. |
| `Conn.Connection.CompReadNext` | internal/starrocks/mysqldriver/compress.go:87-95 | The next bytes of the inflated stream, conserving the rest. |
| `Conn.Connection.ReadPacket` | internal/starrocks/mysqldriver/packets.go:41-123 | The outcome, the remaining bytes and the counter are those defined on the byte stream, however it was fragmented. |
| `Conn.Connection.WritePackets` | internal/starrocks/mysqldriver/compress.go:152-193 | Appends exactly the compressed packets of the bytes. |
| `Conn.Connection.WritePacket` | internal/starrocks/mysqldriver/packets.go:126-175 | Refuses exactly payloads over the limit; else sends the payload as it was before headers overwrote parts of it, and changes only the header places. |
| `Conn.Connection.SyncSequence` | internal/starrocks/mysqldriver/connection.go:94-103 | After it, what writing left in the shared buffer cannot be read. |
| `Transfer.Transfer` | internal/starrocks/mysqldriver/packets.go:41-175 | One end writes, the other reads arbitrary fragments: it gets the payload and the counters agree. |
| `LongData.ChunksConcat` | internal/starrocks/mysqldriver/packets.go:1015-1038 | The chunks make up the argument, none empty or too long. |
| `LongData.Statement.WriteCommandLongData` | internal/starrocks/mysqldriver/packets.go:998-1041 | Terminates, is never too large, and sends commands that name the long-data code, the statement and the parameter, least significant byte first, and whose data make up the argument, although each is built over bytes already sent. |
| `LongData.LongDataDelivered` | internal/starrocks/mysqldriver/packets.go:998-1041 | A receiver gets every command, and their chunks make up the argument. |
| `LongData.HeadUnderstood` | internal/starrocks/mysqldriver/packets.go:1020-1027 | A receiver reads from a command code 0x18, the statement id modulo 2^32, the parameter modulo 2^16, and the data. |
| `LongData.LongDataUnderstood` | internal/starrocks/mysqldriver/packets.go:998-1041 | It gets such commands, and nothing else, for the whole argument. |
| `Escape.ReserveBuffer` | internal/starrocks/mysqldriver/utils.go:617-626 | Makes room, keeping the bytes, in a new array only if needed. |
| `Escape.AppendQuoted` | internal/starrocks/mysqldriver/utils.go:642-737 | Appends a literal within the reserved space that the server reads back as the value, in either mode. |
| `Params.Advance` | internal/starrocks/mysqldriver/connection.go:285-424 | The scanner's branches compute the step of its state machine. |
| `Params.InterpolateParams` | internal/starrocks/mysqldriver/connection.go:248-431 | The stretch-copying loop computes the byte-by-byte result: the arguments' literals at the question marks outside strings, quoted names and comments, in order, and an error exactly when they do not match in number, one has no literal, or the packet has no room. |
| `Literals.LiteralReads` | internal/starrocks/mysqldriver/connection.go:319-410 | From the literal of any argument the server reads that argument and stops at its end, in either mode, iff what follows in the query does not run on into it. |
| `Placeholders.CutIsGaps` | internal/starrocks/mysqldriver/connection.go:285-424 | The scanner's placeholders are the question marks outside strings, quoted names and comments. |
| `Placeholders.InterpolatedWoven` | internal/starrocks/mysqldriver/connection.go:319-431 | The result is the query with the literals at its placeholders, in order. |
| `Placeholders.InterpolatedIff` | internal/starrocks/mysqldriver/connection.go:319-431 | It succeeds iff arguments and placeholders are equal in number, each argument has a literal, and the text up to each but a nil one fits a packet. |
| `Placeholders.ArgumentReads` | internal/starrocks/mysqldriver/connection.go:319-431 | At each placeholder of the result the server reads its argument, nothing more or less, iff what follows does not run on into the literal. |
| `Placeholders.SideBySideMerge` | internal/starrocks/mysqldriver/connection.go:319-410 | Two strings at placeholders side by side are read as one with a quote between them. |
| `Inert.LiteralInert` | internal/starrocks/mysqldriver/connection.go:356-410 | Every literal leaves the scanner where the placeholder would, and starts with no white space. |
| `Inert.InterpolationInert` | internal/starrocks/mysqldriver/connection.go:248-431 | Interpolating a result again with no arguments succeeds and changes nothing; every argument replaced one placeholder; both texts end in the same scanner state. |

## Left out

- SQL null logic: SQL three-valued logic is modelled only as far as LEFT joins, null-safe equality and null-strict scalars need it.
- `SideQuery.SideIsOncePerRow`: a scalar that may be LEFT-joined off the root is assumed null-strict. A DISTINCT term that was deduplicated is left to `FanOut.DistinctKeptIff`.
- `SideQuery.DirectCountDistinct`: a once-per-row reference value exists for one dataset only; over several, `SideQuery.DirectDistinctIgnoresRepeats` says the value depends on the set of joined rows.
- `FanOut.DistinctKeptIff`: exact over all meanings of field expressions; `FanOut.DistinctKeptByKey` covers engines and databases on which the term's values tell the keys apart. With LEFT joins the aggregate is assumed to ignore NULL, as SQL's do.
- `FanOut.OncePerRowIff`: with LEFT joins the aggregate is assumed to ignore NULL.
- `Meaning.RatioColumn`: metrics named apart (see `Composite.CteNamesDistinct`), sides over one dataset, plain or COUNT DISTINCT.
- `RowAccess.NothingRefusedIff`: holds over all contents of the policies. For one given set of policies a lost role may be made up for by another (`RowAccess.TwinRoleAdmits`); `RowAccess.AdmissionKeptIff` decides that case by its filters.
- `PlannedRows.KeepsRowsIff`: about single-pass queries over given datasets of their own (dimensions, filters and metrics), in an acyclic graph whose relationships pair columns, as validation demands. That other filters may also move a ratio between the single pass and a side of its own is not part of it.
- `Readers.EnginesAgreeIff`: which byte an escape other than a backslash or a quote stands for is not modelled, nor are comments and quoted identifiers, which the predicate grammar does not admit.
- `Conn.Connection.ReadPacket`: the data is returned as a value, so it does not say that a returned slice is valid only until the next read; closing the connection after an error, timeouts and read errors other than end-of-stream are not modelled.
- `Conn.Connection.WritePacket`: writes to the network do not fail or come up short in the model.
- `LongData.Statement.WriteCommandLongData`: requires a packet limit above eight bytes; at eight the source's loop does not advance, below that its slice bounds fail.
- `Escape.AppendQuoted`: the four writers of the source, which differ in the escaping and the `_binary` prefix, are one method with two flags.
- `Params.InterpolateParams`: the text of floating-point numbers and of dates is a parameter, assumed to hold no byte the scanner acts on but single minus signs, signs only first or after an e (numbers), and no quote or backslash (dates); a busy connection buffer is not modelled.
- `Literals.LiteralReads`: a number that is no whole one is read as its text; what precedes the placeholder in the query is not looked at.
- `Service.Server.Query`: hashes are assumed free of collisions and, being hexadecimal, of separators, model names and versions free of colons, and the engine's data fixed, the same for any accepted token of one engine user. Metrics, logs, spans and timings are not modelled.
- `Service.DefaultIsComplete`: assumes that a compiled query, when it runs with a LIMIT, gives the first of the rows it stands for; nothing of queries that fail, with or without one.
- `Governance.SortPolicies`: the library sort is an insertion of indexes.
- `Cycle.FindCycle`: returns the path itself, not its rendering joined by arrows.
- `Terms.WhereClauses`: operators and literals are kept as syntax; their rendering, and its errors, are not modelled.
- The metric-expression parser (`Parse`, `readBalanced`), `resolveOrderBy`, `resolveMetricFilters` and grain resolution: validation with few states.
- Physical SQL text, comments, indentation, view DDL, ORDER BY and the final LIMIT of plans, which do not change which rows a plan denotes before they apply.
- Length-encoded integers and strings, authentication, TLS, dialing, DSN parsing and result-row decoding of the driver.
- Kubernetes reconciliation, HTTP, MCP and REST adapters, token handling, external authorizers, configuration and catalog code.
