# Idempotent initialization of the trade monitor, in Dafny

This project models `CommonIdempotentInitialization`, the start-up routine of the Hazelcast banking
trade monitor. Any cluster member or client may call it, and calling it again must be harmless.
It has three entry points:

- `createNeededObjects` touches every IMap name, so that each container exists.
- `loadNeededData` seeds two IMaps, each only if it is found empty:
  - the Kafka-config IMap gets three consumer properties;
  - the symbols IMap gets one `SymbolInfo` per Nasdaq-listed symbol.
  - Any exception makes the call return false. Nothing is rolled back.
- `defineQueryableObjects` sends eight `CREATE [EXTERNAL] MAPPING IF NOT EXISTS` statements to the SQL
  engine: one over the Kafka topic of trades, seven over IMaps. It ANDs the results without
  short-circuit, so every statement is attempted.

The modules:

- `Store`: the IMaps as a map of containers, and `getMap` (`Touch`).
- `Seeding`: `loadNeededData` as a function of the starting store, the properties, the listing, and
  which remote call (if any) throws.
- `Schema`: mapping definitions, the statement text they render to, and how the engine reads a
  mapping name back from a statement.
- `Definitions`: the eight definitions the initializer builds, and the names they register.
- `Catalog`: the SQL engine's mapping catalog.
  - One statement: `Execute` registers a name only if it is absent.
  - A list of statements: `Install` attempts every one and ANDs the results.
- `Cluster`: the `HazelcastInstance` as a class.
  - Fields: the IMaps and the catalog.
  - Methods: one per remote call, including the `size()` that a trace message evaluates. Each call
    other than `getMap` may fail; a failed `putAll` may have stored part of its entries.
- `CommonIdempotentInitialization`: the initializer's methods, written imperatively as in the source.
  Each method's `ensures` ties the new cluster state to the `Seeding` or `Catalog` function, so the
  properties proved there carry over. Ghost out-parameters record which remote call failed.

Main results:

- `loadNeededData`:
  - never alters a non-empty container;
  - seeds exactly the three properties and exactly the listing's records;
  - keeps a config seed when a later step fails, even the `size()` read for a trace message
    (no rollback);
  - after one successful call, a second call changes nothing, whatever fails during it.
- `defineQueryableObjects`:
  - attempts every statement, and reports success iff every statement succeeded;
  - keeps the first statement registered under each name;
  - after any partial failure, one full re-run reaches the catalog of a single full run.
- The Kafka mapping's prefix keeps its name apart from every IMap mapping, including the `trades`
  IMap. Without the prefix, `IF NOT EXISTS` would silently skip one of the two
  (`SharedNameSkipsSecond`).
- A failure between the three config puts leaves a partial config that later calls never complete,
  since they find the container non-empty (`PartialConfigSeedIsKept`). The same holds for a `putAll`
  that fails after storing part of the symbol records (`PartialSymbolsSeedIsKept`).

## Model

| member | source | states |
|---|---|---|
| Store.Touch | banking/trade-monitor/common/src/main/java/com/hazelcast/platform/demos/banking/trademonitor/CommonIdempotentInitialization.java:74-77 | getMap adds the named container if missing, empty, and changes no existing container |
| Store.TouchAll | banking/trade-monitor/common/src/main/java/com/hazelcast/platform/demos/banking/trademonitor/CommonIdempotentInitialization.java:56-58 | getMap on each listed name in order; no container that existed is lost |
| Store.TouchAllContents | banking/trade-monitor/common/src/main/java/com/hazelcast/platform/demos/banking/trademonitor/CommonIdempotentInitialization.java:55-61 | after touching a list, exactly the old and listed names exist; existing contents unchanged; new containers empty |
| Store.TouchAllPresent | banking/trade-monitor/common/src/main/java/com/hazelcast/platform/demos/banking/trademonitor/CommonIdempotentInitialization.java:56-58 | touching names that all exist changes nothing |
| Store.TouchAllIdempotent | banking/trade-monitor/common/src/main/java/com/hazelcast/platform/demos/banking/trademonitor/CommonIdempotentInitialization.java:55-61 | createNeededObjects twice has the effect of once |
| Cluster.Instance.GetMap | banking/trade-monitor/common/src/main/java/com/hazelcast/platform/demos/banking/trademonitor/CommonIdempotentInitialization.java:57 | getMap materialises the container and leaves the catalog alone |
| Cluster.Instance.IsEmpty | banking/trade-monitor/common/src/main/java/com/hazelcast/platform/demos/banking/trademonitor/CommonIdempotentInitialization.java:79 | when the call answers, the answer is whether the container is empty |
| Cluster.Instance.Put | banking/trade-monitor/common/src/main/java/com/hazelcast/platform/demos/banking/trademonitor/CommonIdempotentInitialization.java:84-89 | a null value is rejected; a successful put writes exactly one key of one container; a failed put writes nothing |
| Cluster.Instance.PutAll | banking/trade-monitor/common/src/main/java/com/hazelcast/platform/demos/banking/trademonitor/CommonIdempotentInitialization.java:111 | a successful putAll writes every entry into the one container; a failed one, having no atomicity, writes exactly the entries whose keys it reports as stored |
| Cluster.Instance.Size | banking/trade-monitor/common/src/main/java/com/hazelcast/platform/demos/banking/trademonitor/CommonIdempotentInitialization.java:91 | when the call answers, the answer is the number of entries in the container; the call changes nothing |
| Cluster.Instance.Execute | banking/trade-monitor/common/src/main/java/com/hazelcast/platform/demos/banking/trademonitor/CommonIdempotentInitialization.java:285 | execution changes the catalog as Catalog.Execute says and fails exactly when the statement cannot succeed |
| Schema.Quote | banking/trade-monitor/common/src/main/java/com/hazelcast/platform/demos/banking/trademonitor/CommonIdempotentInitialization.java:153-154 | a reserved field name gets a surrounding pair of double quotes; other names are unchanged |
| Schema.UnquoteQuote | banking/trade-monitor/common/src/main/java/com/hazelcast/platform/demos/banking/trademonitor/CommonIdempotentInitialization.java:153-154 | the lexer's unquoting gives back the field name that was quoted |
| Schema.FieldIsRendered | banking/trade-monitor/common/src/main/java/com/hazelcast/platform/demos/banking/trademonitor/CommonIdempotentInitialization.java:148-155 | every field of a definition appears, rendered, inside the rendered field list |
| Schema.Render | banking/trade-monitor/common/src/main/java/com/hazelcast/platform/demos/banking/trademonitor/CommonIdempotentInitialization.java:143-266 | a statement is the CREATE header (EXTERNAL for the Kafka topic), the mapping name, the field list with reserved names quoted, TYPE and OPTIONS; ParseRenderedName reads the name back |
| Schema.ParseName | banking/trade-monitor/common/src/main/java/com/hazelcast/platform/demos/banking/trademonitor/CommonIdempotentInitialization.java:177-178 | the engine reads a name only from a CREATE [EXTERNAL] MAPPING IF NOT EXISTS statement, and every name it reads is an identifier |
| Schema.ParseHeadedName | banking/trade-monitor/common/src/main/java/com/hazelcast/platform/demos/banking/trademonitor/CommonIdempotentInitialization.java:143-145 | after either CREATE header, the engine reads exactly the name that precedes the next blank |
| Schema.ParseRenderedName | banking/trade-monitor/common/src/main/java/com/hazelcast/platform/demos/banking/trademonitor/CommonIdempotentInitialization.java:177-178 | the engine reads back from a rendered statement exactly the mapping name it was built with |
| Definitions.KafkaMappingNameIsFree | banking/trade-monitor/common/src/main/java/com/hazelcast/platform/demos/banking/trademonitor/CommonIdempotentInitialization.java:145 | the prefixed Kafka mapping name is an identifier, differs from the topic name and from every IMap mapping name |
| Definitions.Names.Valid | banking/trade-monitor/common/src/main/java/com/hazelcast/platform/demos/banking/trademonitor/CommonIdempotentInitialization.java:142-266 | the constants used as names: the topic name and the topic-mapping prefix are identifiers, and the seven IMap names are distinct identifiers that do not start with the prefix |
| Definitions.KafkaTrades | banking/trade-monitor/common/src/main/java/com/hazelcast/platform/demos/banking/trademonitor/CommonIdempotentInitialization.java:143-163 | the external Kafka mapping named prefix plus topic over the trades topic: id, price, quantity, symbol and quoted timestamp fields, json-flat values, earliest offset reset, the given bootstrap servers |
| Definitions.AggregateQueryResults | banking/trade-monitor/common/src/main/java/com/hazelcast/platform/demos/banking/trademonitor/CommonIdempotentInitialization.java:177-185 | the aggregate-query-results IMap mapping: String keys, Tuple3 values, both in java format |
| Definitions.AlertsMaxVolume | banking/trade-monitor/common/src/main/java/com/hazelcast/platform/demos/banking/trademonitor/CommonIdempotentInitialization.java:187-201 | the max-volume alerts IMap mapping: a BIGINT __key and timestamp, symbol and volume fields, Long keys, json-flat values of the HazelcastJsonValue class |
| Definitions.KafkaConfig | banking/trade-monitor/common/src/main/java/com/hazelcast/platform/demos/banking/trademonitor/CommonIdempotentInitialization.java:203-211 | the Kafka-config IMap mapping: String keys and values, both in java format |
| Definitions.Symbols | banking/trade-monitor/common/src/main/java/com/hazelcast/platform/demos/banking/trademonitor/CommonIdempotentInitialization.java:213-221 | the symbols IMap mapping: String keys, SymbolInfo values, both in java format |
| Definitions.Trades | banking/trade-monitor/common/src/main/java/com/hazelcast/platform/demos/banking/trademonitor/CommonIdempotentInitialization.java:223-231 | the trades IMap mapping: String keys, Trade values, both in java format |
| Definitions.PythonSentiment | banking/trade-monitor/common/src/main/java/com/hazelcast/platform/demos/banking/trademonitor/CommonIdempotentInitialization.java:248-256 | the Python sentiment IMap mapping: String keys and values, both in java format |
| Definitions.JobControl | banking/trade-monitor/common/src/main/java/com/hazelcast/platform/demos/banking/trademonitor/CommonIdempotentInitialization.java:258-266 | the job-control IMap mapping: String keys and values, both in java format |
| Definitions.MappingNamesDistinct | banking/trade-monitor/common/src/main/java/com/hazelcast/platform/demos/banking/trademonitor/CommonIdempotentInitialization.java:142-272 | the eight mapping names are identifiers and pairwise distinct |
| Definitions.AllDefinitionsNames | banking/trade-monitor/common/src/main/java/com/hazelcast/platform/demos/banking/trademonitor/CommonIdempotentInitialization.java:126-132 | the eight definitions, in call order, carry the eight listed names |
| Definitions.AllStatementsNames | banking/trade-monitor/common/src/main/java/com/hazelcast/platform/demos/banking/trademonitor/CommonIdempotentInitialization.java:142-272 | the engine reads from the i-th statement exactly the i-th mapping name |
| Definitions.KafkaTimestampIsQuoted | banking/trade-monitor/common/src/main/java/com/hazelcast/platform/demos/banking/trademonitor/CommonIdempotentInitialization.java:153-154 | the Kafka mapping's field list contains `"timestamp" BIGINT`, double-quoted |
| Definitions.AlertsTimestampIsQuoted | banking/trade-monitor/common/src/main/java/com/hazelcast/platform/demos/banking/trademonitor/CommonIdempotentInitialization.java:191 | the max-volume alerts mapping's field list contains `"timestamp" VARCHAR`, double-quoted |
| Catalog.Execute | banking/trade-monitor/common/src/main/java/com/hazelcast/platform/demos/banking/trademonitor/CommonIdempotentInitialization.java:282-291 | one execution succeeds iff the engine is reachable and reads a name from the statement; it never removes a registered name |
| Catalog.Install | banking/trade-monitor/common/src/main/java/com/hazelcast/platform/demos/banking/trademonitor/CommonIdempotentInitialization.java:233-239 | every statement is executed in order whatever earlier ones returned, the results ANDed; no registered name is removed |
| Catalog.ExecuteSpec | banking/trade-monitor/common/src/main/java/com/hazelcast/platform/demos/banking/trademonitor/CommonIdempotentInitialization.java:282-291 | define succeeds iff execution succeeds; a present name keeps its statement; a new name gets this one; a failure changes nothing |
| Catalog.InstallAppend | banking/trade-monitor/common/src/main/java/com/hazelcast/platform/demos/banking/trademonitor/CommonIdempotentInitialization.java:127-131 | running two lists one after the other equals running their concatenation, results ANDed |
| Catalog.InstallSnoc | banking/trade-monitor/common/src/main/java/com/hazelcast/platform/demos/banking/trademonitor/CommonIdempotentInitialization.java:233-238 | one more `ok &= define(...)` extends the installed list by one statement |
| Catalog.InstallStep | banking/trade-monitor/common/src/main/java/com/hazelcast/platform/demos/banking/trademonitor/CommonIdempotentInitialization.java:233-238 | the same step, stated on the parts of the results |
| Catalog.InstallAttemptsAll | banking/trade-monitor/common/src/main/java/com/hazelcast/platform/demos/banking/trademonitor/CommonIdempotentInitialization.java:233-239 | the AND is true iff every statement succeeded, and every successful statement's name is registered whatever failed around it |
| Catalog.InstallOkIffAllSucceed | banking/trade-monitor/common/src/main/java/com/hazelcast/platform/demos/banking/trademonitor/CommonIdempotentInitialization.java:268-271 | the non-short-circuit AND is true iff every statement succeeded |
| Catalog.InstallRegistersSuccesses | banking/trade-monitor/common/src/main/java/com/hazelcast/platform/demos/banking/trademonitor/CommonIdempotentInitialization.java:127-131 | every statement that succeeded has its name registered, whichever others failed before or after it |
| Catalog.InstallKeepsExisting | banking/trade-monitor/common/src/main/java/com/hazelcast/platform/demos/banking/trademonitor/CommonIdempotentInitialization.java:177 | IF NOT EXISTS: existing names keep their statements; new names come only from the statements, each under its own name |
| Catalog.NamedStatementsDistinct | banking/trade-monitor/common/src/main/java/com/hazelcast/platform/demos/banking/trademonitor/CommonIdempotentInitialization.java:126-132 | statements read back as pairwise distinct names are all readable and share no name |
| Catalog.InstallIdempotent | banking/trade-monitor/common/src/main/java/com/hazelcast/platform/demos/banking/trademonitor/CommonIdempotentInitialization.java:126-132 | re-running a fully successful definition set leaves the catalog unchanged, whatever fails in the re-run |
| Catalog.AllNamesPresent | banking/trade-monitor/common/src/main/java/com/hazelcast/platform/demos/banking/trademonitor/CommonIdempotentInitialization.java:143 | when every name is taken, executing the statements changes nothing |
| Catalog.AllSucceedingInstall | banking/trade-monitor/common/src/main/java/com/hazelcast/platform/demos/banking/trademonitor/CommonIdempotentInitialization.java:126-132 | with distinct names and no failure, the catalog becomes the old one plus each new name mapped to its statement |
| Catalog.SameMembers | banking/trade-monitor/common/src/main/java/com/hazelcast/platform/demos/banking/trademonitor/CommonIdempotentInitialization.java:126-132 | two orderings of the same statements contain the same statements and register the same names |
| Catalog.InstallOrderIndependent | banking/trade-monitor/common/src/main/java/com/hazelcast/platform/demos/banking/trademonitor/CommonIdempotentInitialization.java:126-132 | with distinct names, any order of the statements reaches the same catalog |
| Catalog.InstallConverges | banking/trade-monitor/common/src/main/java/com/hazelcast/platform/demos/banking/trademonitor/CommonIdempotentInitialization.java:126-132 | a full re-run after any partly failed run reaches the catalog of one full run |
| Catalog.SharedNameSkipsSecond | banking/trade-monitor/common/src/main/java/com/hazelcast/platform/demos/banking/trademonitor/CommonIdempotentInitialization.java:153 | two statements with one name: only the first to succeed is kept, so the outcome depends on which failed |
| Seeding.ConfigPhase | banking/trade-monitor/common/src/main/java/com/hazelcast/platform/demos/banking/trademonitor/CommonIdempotentInitialization.java:79-92 | the Kafka-config block changes no container but the Kafka-config one |
| Seeding.SymbolsPhase | banking/trade-monitor/common/src/main/java/com/hazelcast/platform/demos/banking/trademonitor/CommonIdempotentInitialization.java:94-114 | the symbols block changes no container but the symbols one |
| Seeding.Load | banking/trade-monitor/common/src/main/java/com/hazelcast/platform/demos/banking/trademonitor/CommonIdempotentInitialization.java:71-120 | loadNeededData on a store: both containers exist afterwards and no other container is added; the symbols block runs only after the Kafka-config block completed |
| Seeding.SeedConfig | banking/trade-monitor/common/src/main/java/com/hazelcast/platform/demos/banking/trademonitor/CommonIdempotentInitialization.java:84-89 | the three puts in order, stopping at a null value or at the put that throws; a put never removes a key |
| Seeding.SymbolRecords | banking/trade-monitor/common/src/main/java/com/hazelcast/platform/demos/banking/trademonitor/CommonIdempotentInitialization.java:97-109 | one record per listed symbol and no other key |
| Seeding.PutAllRecords | banking/trade-monitor/common/src/main/java/com/hazelcast/platform/demos/banking/trademonitor/CommonIdempotentInitialization.java:111 | the putAll of the symbols block: every record, or when it throws the records it stored before throwing |
| Seeding.SeedConfigSpec | banking/trade-monitor/common/src/main/java/com/hazelcast/platform/demos/banking/trademonitor/CommonIdempotentInitialization.java:82-89 | the three puts complete iff all three properties exist and no put fails, and then add exactly the three properties |
| Seeding.SeedConfigIgnoresOtherFaults | banking/trade-monitor/common/src/main/java/com/hazelcast/platform/demos/banking/trademonitor/CommonIdempotentInitialization.java:84-89 | the puts depend on no failure but their own |
| Seeding.ConfigPhaseIgnoresLaterFaults | banking/trade-monitor/common/src/main/java/com/hazelcast/platform/demos/banking/trademonitor/CommonIdempotentInitialization.java:79-114 | a failure in the symbols block does not affect the Kafka-config block that ran before it |
| Seeding.SymbolRecordsSpec | banking/trade-monitor/common/src/main/java/com/hazelcast/platform/demos/banking/trademonitor/CommonIdempotentInitialization.java:97-109 | one record per listed symbol, with securityName, marketCategory and financialStatus from f0, f1 and f2; the listing reads back unchanged |
| Seeding.LoadFrame | banking/trade-monitor/common/src/main/java/com/hazelcast/platform/demos/banking/trademonitor/CommonIdempotentInitialization.java:71-120 | only the two seeded containers can change, and both exist afterwards |
| Seeding.LoadSkipsNonEmpty | banking/trade-monitor/common/src/main/java/com/hazelcast/platform/demos/banking/trademonitor/CommonIdempotentInitialization.java:79-95 | a container found non-empty is left exactly as it was |
| Seeding.LoadSeedsConfig | banking/trade-monitor/common/src/main/java/com/hazelcast/platform/demos/banking/trademonitor/CommonIdempotentInitialization.java:82-89 | an empty Kafka-config container receives exactly the three properties when no put fails; a missing property makes the call fail |
| Seeding.LoadSeedsSymbols | banking/trade-monitor/common/src/main/java/com/hazelcast/platform/demos/banking/trademonitor/CommonIdempotentInitialization.java:97-111 | with no failure, an empty symbols container receives exactly the listing's records and the call succeeds |
| Seeding.ConfigPhaseSeeds | banking/trade-monitor/common/src/main/java/com/hazelcast/platform/demos/banking/trademonitor/CommonIdempotentInitialization.java:82-92 | the three puts fill an empty container with exactly the three properties iff the properties are complete and no put fails; the block completes iff, in addition, the size() read for the trace answers |
| Seeding.ConfigPhaseLeavesNonEmpty | banking/trade-monitor/common/src/main/java/com/hazelcast/platform/demos/banking/trademonitor/CommonIdempotentInitialization.java:79-92 | after the block completes, the Kafka-config container is non-empty |
| Seeding.LoadOnSeeded | banking/trade-monitor/common/src/main/java/com/hazelcast/platform/demos/banking/trademonitor/CommonIdempotentInitialization.java:79-114 | on a store already seeded, a call changes nothing |
| Seeding.LoadIdempotent | banking/trade-monitor/common/src/main/java/com/hazelcast/platform/demos/banking/trademonitor/CommonIdempotentInitialization.java:79-114 | after a successful call, a second call with the same inputs changes no container, whatever fails in it |
| Seeding.LoadNoRollback | banking/trade-monitor/common/src/main/java/com/hazelcast/platform/demos/banking/trademonitor/CommonIdempotentInitialization.java:72-119 | a failure at the size() after the config puts or in the symbols block returns false, keeps the config seed, and leaves in the symbols container only what a failed putAll stored |
| Seeding.FailedPutAllKeepsPart | banking/trade-monitor/common/src/main/java/com/hazelcast/platform/demos/banking/trademonitor/CommonIdempotentInitialization.java:111-119 | a putAll that throws into the empty symbols container leaves there exactly the records it stored, and the call returns false |
| Seeding.PartialSymbolsSeedIsKept | banking/trade-monitor/common/src/main/java/com/hazelcast/platform/demos/banking/trademonitor/CommonIdempotentInitialization.java:94-111 | a putAll that stored some but not all records leaves an incomplete symbols container that later calls never complete |
| Seeding.PartialConfigSeedIsKept | banking/trade-monitor/common/src/main/java/com/hazelcast/platform/demos/banking/trademonitor/CommonIdempotentInitialization.java:79-89 | a failure at the second put leaves one property, and later calls never add the others |
| Seeding.LoadFromTouched | banking/trade-monitor/common/src/main/java/com/hazelcast/platform/demos/banking/trademonitor/CommonIdempotentInitialization.java:74-77 | the initial getMap calls do not change what a call does |
| Seeding.OkCallMetNoFault | banking/trade-monitor/common/src/main/java/com/hazelcast/platform/demos/banking/trademonitor/CommonIdempotentInitialization.java:115-119 | a call that returns true behaves as a call with no failure |
| Seeding.LoadAfterConfigSeed | banking/trade-monitor/common/src/main/java/com/hazelcast/platform/demos/banking/trademonitor/CommonIdempotentInitialization.java:79-114 | a call after one that seeded only the config ends where one clean call ends |
| Seeding.FailedSymbolsPhaseKeepsStore | banking/trade-monitor/common/src/main/java/com/hazelcast/platform/demos/banking/trademonitor/CommonIdempotentInitialization.java:94-114 | a symbols block that throws before storing any record leaves the store as it found it |
| Seeding.LoadConverges | banking/trade-monitor/common/src/main/java/com/hazelcast/platform/demos/banking/trademonitor/CommonIdempotentInitialization.java:71-120 | after a call that failed anywhere except between the config puts or in a putAll that stored records, one clean call reaches the store of a single clean call |
| Seeding.ReputIsNoOp | banking/trade-monitor/common/src/main/java/com/hazelcast/platform/demos/banking/trademonitor/CommonIdempotentInitialization.java:84-89 | re-putting values already in place changes nothing, however far the puts get |
| Seeding.RacingSeedsAgree | banking/trade-monitor/common/src/main/java/com/hazelcast/platform/demos/banking/trademonitor/CommonIdempotentInitialization.java:79-111 | two callers that both found the containers empty write the same values: the second caller's puts and putAll, complete or cut short, leave the first caller's seed as it is |
| CommonIdempotentInitialization.CreateNeededObjects | banking/trade-monitor/common/src/main/java/com/hazelcast/platform/demos/banking/trademonitor/CommonIdempotentInitialization.java:55-61 | returns true; the store becomes TouchAll of the names; the catalog is unchanged |
| CommonIdempotentInitialization.LoadKafkaConfig | banking/trade-monitor/common/src/main/java/com/hazelcast/platform/demos/banking/trademonitor/CommonIdempotentInitialization.java:79-92 | the block's new store and result are those of ConfigPhase, including a failure of the size() after the puts; success means nothing failed |
| CommonIdempotentInitialization.SeedKafkaConfig | banking/trade-monitor/common/src/main/java/com/hazelcast/platform/demos/banking/trademonitor/CommonIdempotentInitialization.java:82-89 | the three puts into the empty container give the container and result of SeedConfig |
| CommonIdempotentInitialization.LoadSymbols | banking/trade-monitor/common/src/main/java/com/hazelcast/platform/demos/banking/trademonitor/CommonIdempotentInitialization.java:94-114 | the block's new store and result are those of SymbolsPhase |
| CommonIdempotentInitialization.LoadNeededData | banking/trade-monitor/common/src/main/java/com/hazelcast/platform/demos/banking/trademonitor/CommonIdempotentInitialization.java:71-120 | the new store and result are those of Seeding.Load; the catalog is unchanged |
| CommonIdempotentInitialization.Define | banking/trade-monitor/common/src/main/java/com/hazelcast/platform/demos/banking/trademonitor/CommonIdempotentInitialization.java:282-291 | true iff execution succeeds; the catalog changes as one Catalog.Execute; the IMaps are unchanged |
| CommonIdempotentInitialization.DefineKafka | banking/trade-monitor/common/src/main/java/com/hazelcast/platform/demos/banking/trademonitor/CommonIdempotentInitialization.java:142-166 | the Kafka statement is installed and its result returned |
| CommonIdempotentInitialization.DefineIMap | banking/trade-monitor/common/src/main/java/com/hazelcast/platform/demos/banking/trademonitor/CommonIdempotentInitialization.java:176-240 | the five statements are installed in order, every one attempted, results ANDed |
| CommonIdempotentInitialization.DefineIMap2 | banking/trade-monitor/common/src/main/java/com/hazelcast/platform/demos/banking/trademonitor/CommonIdempotentInitialization.java:247-272 | the two statements are installed in order, both attempted, results ANDed |
| CommonIdempotentInitialization.DefineQueryableObjects | banking/trade-monitor/common/src/main/java/com/hazelcast/platform/demos/banking/trademonitor/CommonIdempotentInitialization.java:126-132 | all eight statements are installed in order, every one attempted, results ANDed |
| CommonIdempotentInitialization.AllStatementsDistinct | banking/trade-monitor/common/src/main/java/com/hazelcast/platform/demos/banking/trademonitor/CommonIdempotentInitialization.java:142-272 | the eight statements are all readable and register pairwise distinct names |
| CommonIdempotentInitialization.DefineQueryableObjectsRegistersAll | banking/trade-monitor/common/src/main/java/com/hazelcast/platform/demos/banking/trademonitor/CommonIdempotentInitialization.java:126-132 | a call with no failure returns true and registers all eight names, each new one under its own statement |
| CommonIdempotentInitialization.DefineQueryableObjectsConverges | banking/trade-monitor/common/src/main/java/com/hazelcast/platform/demos/banking/trademonitor/CommonIdempotentInitialization.java:126-132 | a call with no failure after a partly failed one leaves the catalog one call with no failure leaves |
| CommonIdempotentInitialization.BootstrapIdempotent | banking/trade-monitor/common/src/main/java/com/hazelcast/platform/demos/banking/trademonitor/CommonIdempotentInitialization.java:39-45 | after a successful round of the three calls, a second round changes no container and no mapping, whatever fails in it |

## Left out

- Logging (every `LOGGER` call) is not modelled.
- Concurrency is not modelled. Calls run one after another. The check-then-act race between `isEmpty`
  and `put` is covered only by the sequential lemmas `RacingSeedsAgree` and `ReputIsNoOp`.
- The constants class `MyConstants` that the initializer imports is not part of this model. Its names
  are the `Names` input.
  - `Names.Valid` requires the IMap names to be distinct identifiers, and the topic name to be an
    identifier.
  - It also requires the topic-mapping prefix to be a non-empty identifier that no IMap name starts with.
- `InitializerConfig.kafkaSourceProperties` and `MyUtils.nasdaqListed` are not part of this model.
  - The properties are a function input.
  - The listing is an input; `None` stands for the file reader throwing.
- The `ClassNames` input stands for the class names `getCanonicalName()` returns, which depend on
  imports and the class path. `ImportedClassNames` records the names the import list designates.
- The Nasdaq enum types are opaque codes.
- Schema.ParseName reads only the statement header and the mapping name. Other SQL syntax errors are
  not modelled: every failure of `execute` is one outcome, "not reachable".
- Schema.Render normalises spacing. The exact blanks of the Java string literals (column padding,
  blanks before commas) are not reproduced.
- CommonIdempotentInitialization.LoadNeededData: `getMap` and `kafkaSourceProperties` are taken never
  to throw, so the model has no failure before the first `isEmpty`.
- CommonIdempotentInitialization.CreateNeededObjects: `getMap` is taken never to throw, as the source
  comment says.
- Seeding.LoadConverges: excludes a failure at the second or third config put, and a failed `putAll`
  that stored any record. As `PartialConfigSeedIsKept` and `PartialSymbolsSeedIsKept` show, a call
  after such a failure never completes that container.
- The coordinating code that calls the three entry points is not part of this model.
  `BootstrapIdempotent` composes them in their order.
