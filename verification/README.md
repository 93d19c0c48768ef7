# Verification model of the MiSArch address and catalog services

A Dafny model of the parts of these services whose correctness depends on the interplay of several
functions, and proofs about every run of them:

* **Federated entity resolution** (`Entities`, `ForkJoin`, `ForkJoinRuns`, `ResolveEntities`).
  Representations are grouped by `__typename`; a goroutine per group and per entity writes one shared
  list; two levels of WaitGroup join them. The goroutines are a step relation with an invariant, and
  also an object mutated in place under a scheduler that may choose any goroutine at every turn. Every
  schedule ends, without deadlock, in the list and the errors of the sequential pointwise map. The
  address and catalog versions differ only in their table of types, which is a parameter.
* **GraphQL result completion** (`Schema`, `Completion`, `ResponseRelation`, `CompletionLaws`,
  `Deferral`, `OrphanGroups`, `FieldSets`, `Marshallers`, `EntityMarshaller`, `AddressEntities`). The
  mutually recursive object marshallers count invalid nulls in a field set; the reference is the exception-like reading of
  section 6.4.4 of the GraphQL specification (October 2021), where a field error is raised and caught
  at the nearest nullable position. The marshallers write exactly what the reference completes to, and
  `ResponseRelation` says, of outcomes and response alone, that it is the one response that shows
  those outcomes. `AddressEntities` joins this with the resolution above: the `_entities` field from
  the stored rows to the response.
* **Incremental delivery** (`DeferredGroups`, `ResponseHandler`, `DeferredForest`). The query response
  handler, with the goroutines of the deferred groups running between any two of its actions; and the
  forest of groups that completing an operation gives rise to.
* **Pagination compiled to SQL** (`SqlText`, `AddressRows`, `SqlQuery`, `Sorting`, `SqlEval`,
  `Pagination`, `AddressListing`). The page builder renders text; the text is split into words,
  parsed and evaluated against a table, and means filter, sort, drop, take. Walking the pages
  enumerates everything.
* **The address service as a protocol** (`AddressDb`, `AddressProtocol`, `AddressRuns`,
  `AddressRequests`, `VendorSchedules`, `AddressService`). Check, insert, commit, update and publish
  are separate actions of any number of interleaved requests, each of which can fail where the code
  handles a failure.
* **Category creation** (`Duplicates`, `CatalogTables`, `CatalogStore`, `CatalogGraph`). A
  transaction that inserts, then looks for duplicates, then inserts more or rolls back.

`dafny verify dfyconfig.toml` checks the whole project. `Wrappers` and `Sums` are shared helpers.

## Findings

Five properties one would expect of this code are false of it. For each the code is modelled as it
is, an input that shows the failure is given, and the exact condition is proved:

* **A null at a non-null position.** A deferred `User.addresses` or `UserAddress.user` is written as
  null into the initial response and counted by nobody (address/graph/generated.go:4432 and 4558).
  The initial response respects the schema for all resolver outcomes if and only if the operation
  defers neither field: `CompletionLaws.NonNullUnlessDeferred`; an operation for which it does not:
  `CompletionLaws.DeferredAddressesAreNull`.
* **Groups without an object.** An object registers its deferred groups as soon as it is complete
  itself; a null that reaches an ancestor later does not take them back. They are still counted and
  delivered: `Deferral.GroupsOutliveTheirObjects`. A value that ends as null has registered no group,
  for all resolver outcomes, if and only if in the selection no field that can raise stands beside
  another that registers, and no list has elements that can both raise and register:
  `OrphanGroups.NoOrphansExactly`.
* **`hasNextPage` on large offsets.** `first + skip` is added in machine integers and wraps around, so
  a request whose page body alone would succeed fails: `AddressListing.SumOverflows`; a request
  succeeds if and only if neither bound is negative and the sum fits:
  `AddressListing.ListingSucceeds`. A walk over all pages succeeds if and only if the last page ends
  within the machine integers: `AddressListing.WalkShowsEverything`.
* **The latest vendor address.** The version is drawn at the INSERT, not at the commit, so the vendor
  row committed last need not be the current one: `VendorSchedules.CommitOrderIsNotInsertOrder`. In
  every run it is the current one if and only if no vendor address was inserted and committed while
  its own transaction was open: `VendorSchedules.LastCommittedIsCurrent`. A caller that never has two
  vendor creations open at once sees it current at every moment: `VendorSchedules.PointerIsCurrent`.
* **Units of numerical characteristics.** The store accepts a numerical input without a unit; numerical
  rows all carry one after a creation if and only if they did before and the inputs do. Through the
  resolvers they always do: `CatalogTables.UnitsFollowInputs`, `CatalogGraph.Resolver.CreateCategory`;
  a store call after which one does not: `CatalogStore.CreateUnitless`.

## Assumptions

* Finders are deterministic for one call; they may return an error, a nil pointer, or panic.
* Any field may fail or come out nil, with or without a resolver of its own, because the library runs
  field middleware around each. The elements of a list are Go values: an element is never nil and
  fails only through its fields.
* The library behind the generated code: `ResolveField` shows an error, a recovered panic and a nil
  result as `Null`, and never yields `RequiredNull`; `Dispatch` and `MarshalSliceConcurrently` run
  every function they were given, in any order, and wait for all; every deferred group is counted as
  pending before its goroutine runs and before its parent's result is sent, and sends one result. A
  field deferred under several labels is completed once, under any one of them.
* The database: identifiers are unique, `nextval` strictly increases, a failed statement or commit
  changes nothing, and a transaction's writes become visible at its commit. `OFFSET` and `LIMIT`
  arguments must not be negative, and a statement takes exactly as many arguments as its highest
  placeholder and uses each of them. The trigger on the name columns never fires, because the
  mutations write both or neither.
* A publish that reports an error may or may not have reached the broker.

## Model

| member | source | states |
|---|---|---|
| Entities.ResolveEntity | address/graph/federation.go:142-216 | a found value, of the type asked for, exactly when the type is known, the key is there and not null, the identifier parses and the finder finds; otherwise the error of the first of these checks that fails |
| Entities.OneAnswer | address/graph/federation.go:85-216 | for each representation exactly one answer is right: the value its finder found, or one error |
| Entities.BuildRepresentationGroups | address/graph/federation.go:80-101 | the loop that appends to map slices computes the groups, and one error for each representation without a string `__typename` |
| Entities.GroupingIsPartition | address/graph/federation.go:80-101 | every entry with a string `__typename` is in exactly one group, its own type's, carrying its own representation; indices increase inside a group; no two entries of groups share an index, so write sets are disjoint |
| ForkJoin.GroupingIsConsistent | catalog/graph/federation.go:80-101 | entries and entity goroutines correspond one to one, for any table of types |
| ForkJoin.ExpectedAnswers | address/graph/federation.go:110-127 | the sequential result, read off the requests alone: cell i is what the finder of representation i found if and only if all its checks hold, and nil otherwise; each error occurs as often as there are representations whose first failing check it reports |
| ForkJoin.InitInv | address/graph/federation.go:39-43 | the invariant holds when grouping is done and no goroutine has started |
| ForkJoin.StepInv | address/graph/federation.go:44-131 | every atomic action of every goroutine keeps: counters equal unfinished goroutines, settled cells hold their own entity's result and others are nil, recorded errors are those of settled entries |
| ForkJoinRuns.EverySchedule | address/graph/federation.go:39-133 | whenever a call has returned, under any interleaving and in the branches for no, one and many groups alike, list and errors are those of resolving each representation on its own, and so what the checks of each representation decide |
| ForkJoinRuns.StepDecreases | address/graph/federation.go:52-62 | each step of each goroutine uses up one unit of a measure, so all schedules are equally long |
| ForkJoinRuns.Progress | address/graph/federation.go:117-131 | until the call has returned some goroutine can move: no deadlock |
| ForkJoinRuns.EveryScheduleEnds | address/graph/federation.go:39-133 | a run's length plus the work left is constant; no work is left exactly when it returned, otherwise a step is enabled |
| ForkJoinRuns.JoinIsSafe | address/graph/federation.go:52-62 | WaitGroup counters are never negative and positive at every Done; Wait passes only when every cell of its level is settled |
| ForkJoinRuns.OneOutcomeEach | address/graph/federation.go:110-127 | recorded errors plus resolved cells add up to the number of representations |
| ForkJoinRuns.RunInv | address/graph/federation.go:39-133 | the invariant holds at every point of every run |
| ResolveEntities.ResolveEntities | catalog/graph/federation.go:39-133 | the call as it runs, mutating one list in place under a free scheduler: a cell is filled if and only if its representation has a string `__typename` of a known type, a key that is there, not null and parses, and a finder that finds, and then with what was found; otherwise it is nil and the error of the first check that fails is recorded |
| ResolveEntities.Resolution.Settle | address/graph/federation.go:120-125 | an entity goroutine's in-place write or error is the settling step of the relation |
| ResolveEntities.Resolution.EntityDone | address/graph/federation.go:126 | e.Done as it changes the counter is the step of the relation |
| ResolveEntities.Resolution.GroupDone | address/graph/federation.go:57 | g.Done is called in the many-group branch only |
| ResolveEntities.Resolution.Schedule | address/graph/federation.go:117-131 | whichever goroutine of a group moves, the fields change by an enabled step |
| ResolveEntities.Resolution.Turn | address/graph/federation.go:44-62 | whichever goroutine of the call moves, the fields change by an enabled step |
| ResponseRelation.CompletedAnswers | address/graph/generated.go:2038-2061 | for every outcome tree the written response shows it leaf for leaf, field for field and element for element: a selected leaf shows its own value, a type name its object's type, a deferred field null; any other position is null if and only if its outcome is nil or an error or a non-null position right inside it is null |
| ResponseRelation.OneResponse | address/graph/generated.go:4389-4703 | no other response shows the same outcome tree |
| CompletionLaws.CompletedConforms | address/graph/generated.go:3994-4703 | for every selection without a deferrable @defer and every outcome tree, the written response has no null at a non-null position |
| CompletionLaws.NonNullUnlessDeferred | address/graph/generated.go:4415-4434 | the initial response conforms for all outcomes if and only if no deferrable field is deferred |
| Deferral.DeferFreeRegistersNothing | address/graph/generated.go:4451-4458 | without @defer no group is registered |
| Deferral.GroupsOutliveTheirObjects | address/graph/generated.go:4447-4458 | a list that is null because of its second element has registered a group for its first |
| CompletionLaws.DeferredAddressesAreNull | address/graph/generated.go:4431-4433 | all resolvers succeed, and the response has a null for addresses, which the schema does not allow |
| OrphanGroups.NoOrphansExactly | address/graph/generated.go:4446-4461 | for every type and selection: no outcome makes a null value that has registered groups, if and only if nowhere does a field that can raise stand beside one that registers, or a list have elements that can do both |
| Deferral.LabelsAre | address/graph/generated.go:4422-4429 | an object has one group for each label that some deferred field of it is under |
| FieldSets.FieldSet.SetRequired | address/graph/generated.go:4213-4217 | a value is written in place and the count goes up exactly when it is a null that was raised |
| FieldSets.FieldSet.SetOptional | address/graph/generated.go:4475-4479 | a nullable field is written and nothing is counted |
| FieldSets.FieldSet.Summary | address/graph/generated.go:4447-4449 | once all fields are in, the count is positive exactly when the object must be null, and otherwise the values are the completed fields |
| FieldSets.DeferredSet.Add | address/graph/generated.go:4416-4429 | the view of a label holds exactly the deferred fields under that label |
| Marshallers.MarshalName | address/graph/generated.go:4203-4242 | writes what the reference completes to, so the one response that shows the outcomes, and registers no more |
| Marshallers.MarshalUser | address/graph/generated.go:4389-4461 | writes what the reference completes to, so the one response that shows the outcomes, with delayed fields dispatched in any order, and registers one group per label if it is not null |
| Marshallers.MarshalUserAddress | address/graph/generated.go:4465-4582 | the same for user addresses |
| Marshallers.MarshalConnection | address/graph/generated.go:4586-4630 | the same for connections |
| Marshallers.MarshalVendorAddress | address/graph/generated.go:4634-4703 | the same for vendor addresses |
| Marshallers.RequiredNodes | address/graph/generated.go:5258-5272 | elements are completed in any order; one null makes the list null, and the list is null for no other reason than that or its own error |
| Marshallers.RequiredUser | address/graph/generated.go:5244-5252 | an error or a nil pointer is the null of a non-null position |
| Marshallers.RequiredConnection | address/graph/generated.go:5288-5296 | an error or a nil pointer is the null of a non-null position |
| Marshallers.OptionalName | address/graph/generated.go:5737-5742 | null stops at a nullable field |
| EntityMarshaller.MarshalEntity | address/graph/generated.go:3994-4026 | a nil interface and a nil pointer of any type are null; otherwise the response shows the value under its dynamic type and the selection for that type |
| EntityMarshaller.MarshalEntities | address/graph/generated.go:5364-5372 | the list is never null and element k shows entity k alone |
| EntityMarshaller.NullNodeNullsTheEntity | address/graph/generated.go:4386-4630 | a node that cannot be completed nulls the nodes, the connection and the user, and the null stops at the `_entities` element |
| EntityMarshaller.EntitiesConform | address/graph/generated.go:5873-5878 | without @defer every element is null or conforms to its type |
| AddressEntities.QueryEntities | address/graph/generated.go:1796-1815 | the whole `_entities` field: under every schedule of resolvers and marshallers element i shows what the finder of representation i found, under its type and the selection for that type, and is null for a nil pointer or a representation that fails; each error occurs as often as it is the first failing check of a representation |
| ResponseHandler.Handler.Step | address/graph/generated.go:4451-4458 | a goroutine that registers nested groups before it offers its result keeps the counters in step with the live goroutines, and makes progress |
| ResponseHandler.Handler.Receive | address/graph/generated.go:457-459 | while a group is pending a result comes: the wait neither deadlocks nor goes on for ever |
| ResponseHandler.Handler.Next | address/graph/generated.go:448-477 | the n-th call answers while n is at most the number of groups, nested ones included, and is nil for good after; the pending counter is never negative; hasNext is left out when nothing was deferred and otherwise true exactly when another response follows |
| ResponseHandler.AllResponses | address/graph/generated.go:448-477 | calling until nil yields one initial response and exactly one for each group, nested ones included, under its name, each with the right hasNext |
| DeferredForest.ForestSizes | address/graph/generated.go:4451-4458 | the groups of an operation form a forest with as many roots as its completion registers and as many groups as all completions together do, whichever label a field is completed under |
| DeferredForest.ServeEntities | address/graph/generated.go:448-477 | from the completion of `_entities` to the last response: the marshallers' counter is the number of roots, and there is one response more than all completions register; one alone when nothing is deferred |
| SqlQuery.QueryRoundTrip | address/store/pagination.go:57-105 | reading the words of a statement gives that statement back |
| AddressRows.ScanReadsProjection | address/store/address.go:207-214 | the scan targets agree with the projected columns, one by one |
| Sorting.SortSorts | address/store/pagination.go:38-45 | ORDER BY gives a strictly ordered permutation when ids are distinct |
| Sorting.SortedIsUnique | address/store/pagination.go:38-45 | the ordered permutation is the only one, so the database has no choice |
| Sorting.FilterOfSort | address/store/pagination.go:48-53 | filtering commutes with ordering |
| Pagination.OrderBy | address/store/pagination.go:38-45 | the loop over the columns renders the clause |
| Pagination.NodesSQL | address/store/pagination.go:91-105 | the text and the argument list, built step by step |
| Pagination.HasNextPage | address/store/pagination.go:69-86 | no query and no next page without a limit; otherwise the answer to the rendered probe |
| Pagination.NodesTextParses | address/store/pagination.go:91-105 | for every column list, predicate list and non-empty order, whatever its arguments, the text is the statement it is meant to be, every placeholder in its place |
| Pagination.NodesMeaning | address/store/pagination.go:91-105 | evaluated with its arguments the text is filter, sort, drop, take; a negative bound is the database's error |
| Pagination.ExistsMeaning | address/store/pagination.go:69-86 | the probe is true exactly when a row exists at first + skip, added with wrap-around |
| Pagination.CountMeaning | address/store/pagination.go:57-64 | the count is the number of rows the predicates keep, whatever first and skip are |
| Pagination.EmptyOrderIsRejected | address/store/pagination.go:38-45 | with no order column neither the page body nor the probe is a statement |
| Pagination.UnusedArgumentIsRejected | address/store/pagination.go:19-27 | a page that carries an argument none of its predicates uses is refused |
| AddressListing.ScanAddresses | address/store/address.go:217-234 | all rows in order, or an error when one does not scan |
| AddressListing.ListUserAddresses | address/store/address.go:155-204 | the three queries together return a window of the owner's filtered listing, its total and its flag, or the first error of a lost query or a negative bound; the probe is not sent for an unbounded page |
| AddressListing.Addresses | address/graph/schema.resolvers.go:184-196 | without permission nothing is read; success if and only if allowed, no query is lost, no bound is negative and the sum fits; the answer is the page the arguments ask for or the first error. With distinct ids: no value in the filter counts archived and active rows, ids increase unless DESC is asked for and then decrease, node i has exactly skip + i of the wanted rows ahead of it, the page is as full as it can be, and hasNextPage tells whether wanted rows are left |
| AddressListing.ListingSucceeds | address/store/pagination.go:69-86 | success if and only if neither bound is negative and the sum fits the machine integer |
| AddressListing.SumOverflows | address/store/pagination.go:77 | a request with no negative bound that fails |
| AddressListing.NextPageMeansMoreRows | address/store/pagination.go:57-105 | hasNextPage if and only if skip + nodes < total; an unbounded page has no next page and holds every row after skip |
| AddressListing.WalkShowsEverything | address/store/address.go:155-204 | for every first >= 1, walking pages shows every selected row exactly once, on max(1, ceil(total/first)) pages, if and only if those pages end within the machine integers |
| AddressListing.WalkIs | address/store/pagination.go:66-105 | a walk that fails has shown a prefix of the listing, and failed for the wrapped offset only |
| AddressListing.PagesIsCeiling | address/store/pagination.go:66-86 | the number of pages is max(1, ceil(total/first)) |
| AddressListing.SmallTablesWalk | address/store/pagination.go:66-86 | no walk over up to 2^62 rows fails, whatever first is |
| AddressListing.ListingIsSorted | address/store/address.go:21-24 | the listing a walk shows is strictly ordered by id, in the direction asked for |
| AddressListing.DescendingWalkIsReversed | address/store/pagination.go:30-35 | the descending walk fails on the same tables, and is otherwise the ascending one reversed |
| AddressListing.ArchivedFilterPartitions | address/store/address.go:163-171 | the unfiltered listing is an order-preserving merge of the archived and the active one, which share no row; totals add up |
| AddressProtocol.StepInv | address/graph/schema.resolvers.go:18-146 | every action of every request keeps the invariant over tables, requests under way and log |
| AddressRuns.RunInv | address/graph/schema.resolvers.go:18-146 | the invariant holds at every point of every run |
| AddressRuns.TableFacts | address/store/address.go:91-131 | a user row's owner is registered, vendor rows are never archived, names are whole or absent, versions are distinct |
| AddressRuns.RowsAreForever | address/store/address.go:140-149 | no row is ever deleted, nothing but archivedAt changes, an archived row stays archived |
| AddressRuns.EventsAreSound | address/graph/schema.resolvers.go:45-58 | a created event describes a committed row field by field, an archived event names an archived row and its owner, also when requests interleave and publishes fail |
| AddressRuns.RebuildIgnoresOrder | address/graph/schema.resolvers.go:83-105 | any reordering of the log rebuilds the same replica |
| AddressRuns.LogRebuildsTable | address/graph/schema.resolvers.go:124-145 | the log rebuilds the rows, field by field, and the archived flags if and only if every owed event reached the broker; so when all requests are over and none failed to publish |
| AddressRequests.RowsAreAsRequested | address/store/address.go:104-121 | in every run every row was added by the commit of a create request and holds that request's input, each field under its own name, and its owner; archivedAt aside it still does |
| AddressRequests.EventsAreAsRequested | address/graph/schema.resolvers.go:83-105 | in every run every created event tells, field by field, of the request that committed its row |
| AddressRequests.OneRowEach | address/store/address.go:116-130 | no request commits two rows |
| VendorSchedules.CurrentVendorIsInsertedLast | address/store/address.go:48-62 | the vendor row of highest version is the one inserted last among those committed |
| VendorSchedules.CurrentVendorExists | address/store/address.go:51-62 | there is a current vendor address exactly when there is a vendor row, and only one |
| VendorSchedules.CurrentVendorStays | address/store/address.go:116-149 | user addresses, archiving and registration never change it |
| VendorSchedules.LastCommittedIsCurrent | address/store/address.go:116-130 | at every point of every run the vendor row committed last is current if and only if no other vendor address was both inserted and committed while its transaction was open |
| VendorSchedules.OneAtATimeIsCurrent | address/store/address.go:96-130 | while no two vendor creations have been open at once, the row committed last is current, and one that is open has a higher version than all committed |
| VendorSchedules.PointerIsCurrent | address/store/address.go:51-62 | then the row that the version order selects is exactly the one committed last |
| VendorSchedules.CommitOrderIsNotInsertOrder | address/store/address.go:116-130 | a run in which it is not |
| AddressService.AddressService.RegisterUser | address/store/address.go:79-84 | a second delivery is an error and changes nothing; the call extends a run |
| AddressService.AddressService.CurrentVendorAddress | address/store/address.go:51-62 | the vendor row of highest version, or none when there is no vendor row |
| AddressService.AddressService.CreateAddress | address/store/address.go:91-131 | the row is there exactly on success, and each of its fields is the input's field of that name; a version drawn is not given back; the call extends a run |
| AddressService.AddressService.ArchiveAddress | address/store/address.go:140-149 | only archivedAt of that row changes, also when it was set before |
| AddressService.AddressService.PublishEvent | address/events/events.go:75-88 | the event is in the log when no error is reported, and after a reported error exactly when it was delivered all the same |
| AddressService.AddressService.CheckUserFor | address/graph/schema.resolvers.go:63-75 | permission is checked before the user's existence |
| AddressService.AddressService.CreateUserAddress | address/graph/schema.resolvers.go:62-106 | which check decides; on success, and in the table also when only the publish failed, each field of the row is the input's field of that name, the names are the input's or both absent, the owner is the one asked for, the row is active; the event announced carries the same input; a failed publish leaves the row, and the event if it was delivered |
| AddressService.AddressService.CreateVendorAddress | address/graph/schema.resolvers.go:109-146 | the same without an owner |
| AddressService.AddressService.ArchiveUserAddress | address/graph/schema.resolvers.go:18-59 | loading precedes authorization, a vendor address changes nothing and publishes nothing, a failed publish leaves the row archived, and the event if it was delivered |
| Duplicates.DuplicateStrings | catalog/store/category.go:148-164 | exactly the values that occur at least twice, each once, in order of first occurrence; empty exactly when no two are equal |
| Duplicates.CountStrings | catalog/store/category.go:149-156 | the counts are multiplicities and the order is that of first occurrences |
| Duplicates.DuplicatesAreUnique | catalog/store/category.go:145-164 | no other list satisfies that description |
| CatalogTables.CreationKeepsOk | catalog/store/category.go:54-63 | after a creation every characteristic points to an existing category and categorical rows have no unit |
| CatalogTables.RowsAreListed | catalog/store/category.go:54-63 | rows stored in input order under distinct ids and names: each input finds exactly one row with its values, each row has an input, and the kinds count up |
| CatalogTables.UnitsFollowInputs | catalog/store/category.go:59-63 | numerical rows all have units afterwards if and only if they did before and the inputs do |
| CatalogStore.CreateUnitless | catalog/store/category.go:59-63 | a store call with a numerical input that has no unit succeeds and leaves a numerical row without one |
| CatalogStore.Tx.InsertCharacteristic | catalog/store/category.go:118-130 | refused for an id or category the transaction does not allow; seen by the transaction alone |
| CatalogStore.Tx.Commit | catalog/store/category.go:65-67 | all the transaction wrote becomes visible, or nothing |
| CatalogStore.Store.CreateCategory | catalog/store/category.go:25-69 | succeeds if and only if every statement works and names are distinct; then there is one category more, and for each input exactly one new row, of its kind, with its name, description and unit and the category's id; as many rows of each kind as inputs of it, and no other; on any error, also duplicates found after the insert, the tables are as before |
| CatalogStore.Store.InsertCharacteristics | catalog/store/category.go:54-63 | the k-th id has the row of the k-th input, categorical before numerical, with the discriminator of its kind and the input's own name, description and unit; no other id has a row |
| CatalogStore.Store.CreateStandaloneCharacteristic | catalog/store/category.go:90-115 | the first check that fails decides; one row or no change |
| CatalogGraph.CreatedRows | catalog/store/category.go:37-63 | as many rows as inputs, all of the new category, no two of one name |
| CatalogGraph.ConcreteRoundTrip | catalog/graph/mappers.go:70-92 | the concrete type follows the discriminator, and the conversion loses nothing exactly when a numerical row has its unit |
| CatalogGraph.ToNamedInputs | catalog/graph/inputs.go:31-37 | categorical inputs carry no unit |
| CatalogGraph.ToNumericalNamedInputs | catalog/graph/inputs.go:40-47 | numerical inputs always carry one |
| CatalogGraph.Resolver.CreateCategory | catalog/graph/schema.resolvers.go:90-110 | answers, and errs, exactly when permission, the store and the publish decide so; the new rows are one for each input the client gave, numerical ones with their unit; keeps tables in order and units present; after an error the tables are unchanged unless publishing failed after the commit, and then the category is there |
| CatalogGraph.Resolver.CreateNumericalCharacteristic | catalog/graph/schema.resolvers.go:113-123 | the type assertion on the converted row cannot fail; exactly when every check and statement works, one row with the input's values is added |
| CatalogGraph.Resolver.CreateCategoricalCharacteristic | catalog/graph/schema.resolvers.go:77-88 | the type assertion on the converted row cannot fail; exactly when every check and statement works, one row with the input's values is added |
| CatalogGraph.Resolver.FindCharacteristic | catalog/store/get.go:101-127 | a typed lookup whose query works succeeds exactly on a row of that kind, with that row's values, so the entity resolvers' assertions cannot fail |

## Left out

* gqlgen's library, pgx and PostgreSQL themselves: they appear only as the assumptions above.
* `isMulti` is false for every type, so `resolveManyEntities` is dead code and not modelled.
* What a deferred group's own result contains: views share one field set inside the library. Which
  groups there are and what each registers is modelled, not the value each delivers.
* The mutation branch of the handler answers once and then nil; it never receives deferred results.
* Marshaller wrappers for scalars, the query root, introspection and input unmarshalling repeat one
  template and would add easy members only; the same holds for catalog/graph/generated.go.
* Unknown field names (a panic in the marshallers) cannot pass validation and are excluded.
* The three listing queries see one snapshot; they are not in a transaction in the code either.
* Order columns other than id and version: text columns would need the database's collation, and the
  address schema offers id only.
* The 32-bit counters of invalid fields and of deferred groups are unbounded here.
* Go slices are values here: that `append` on a fresh copy leaves `p.args` alone is not an aliasing
  proof.
* AddressService.AddressService.CreateAddress: the class runs one request at a time; interleaving of
  requests is in `AddressProtocol`, of which every call of the class extends an arbitrary run.
* CatalogStore.Store.CreateCategory: one transaction at a time; what others commit in between could
  only add rows, and appears as an id that is taken.
* Authorization is a boolean decided outside the model; roles and headers are not modelled.
* Column lengths, the one column that is nullable in the table but not in the schema, timestamps'
  values, id generation, error texts and logging.
* Events do not carry version and archive time, so the replica has neither.
* Product, variant and version functions of the catalog, catalog pagination, and the sagas of the
  other services.
