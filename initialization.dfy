/**
 * The idempotent bootstrap of the trade monitor: the three entry points any
 * member or client may call at start-up, each safe to call again.
 */
module CommonIdempotentInitialization {
  import opened Wrappers
  import opened Schema
  import opened Store
  import opened Seeding
  import opened Definitions
  import Catalog
  import opened Cluster

  /** Touches every IMap name so that each container exists. Cannot fail. */
  method CreateNeededObjects(hazelcastInstance: Instance, imapNames: seq<string>) returns (ok: bool)
    modifies hazelcastInstance
    ensures ok
    ensures hazelcastInstance.maps == TouchAll(old(hazelcastInstance.maps), imapNames)
    ensures hazelcastInstance.catalog == old(hazelcastInstance.catalog)
  {
    for i := 0 to |imapNames|
      invariant hazelcastInstance.maps == TouchAll(old(hazelcastInstance.maps), imapNames[..i])
      invariant hazelcastInstance.catalog == old(hazelcastInstance.catalog)
    {
      hazelcastInstance.GetMap(imapNames[i]);
      assert imapNames[..i + 1][..i] == imapNames[..i];
    }
    assert imapNames[..|imapNames|] == imapNames;
    ok := true;
  }

  /** The Kafka-config block of loadNeededData: if the container is empty,
      seed it with the three consumer properties, then read its size for the
      trace message. */
  method LoadKafkaConfig(hazelcastInstance: Instance, kafkaConfig: string, bootstrapServers: string,
                         kafkaSourceProperties: string -> Properties)
    returns (ok: bool, ghost fault: Option<LoadStep>)
    requires kafkaConfig in hazelcastInstance.maps
    modifies hazelcastInstance
    ensures (hazelcastInstance.maps, ok)
      == ConfigPhase(old(hazelcastInstance.maps), kafkaConfig, kafkaSourceProperties(bootstrapServers), fault)
    ensures ok ==> fault.None?
    ensures hazelcastInstance.catalog == old(hazelcastInstance.catalog)
  {
    var answered, empty := hazelcastInstance.IsEmpty(kafkaConfig);
    if !answered {
      return false, Some(CheckConfig);
    }
    if !empty {
      return true, None;
    }
    var properties := kafkaSourceProperties(bootstrapServers);
    ok, fault := SeedKafkaConfig(hazelcastInstance, kafkaConfig, properties);
    if ok {
      var sized, size := hazelcastInstance.Size(kafkaConfig);
      if !sized {
        ghost var seeded := SeedConfig(map[], ConfigEntries(properties), 0, None);
        assert SeedConfig(map[], ConfigEntries(properties), 0, Some(SizeConfig)) == seeded by {
          SeedConfigIgnoresOtherFaults(map[], ConfigEntries(properties), 0, Some(SizeConfig));
        }
        ok, fault := false, Some(SizeConfig);
      }
    }
  }

  /** The three puts of the Kafka-config block, in order, stopping at the
      first one that throws (a null property value makes put throw). */
  method SeedKafkaConfig(hazelcastInstance: Instance, kafkaConfig: string, properties: Properties)
    returns (ok: bool, ghost fault: Option<LoadStep>)
    requires kafkaConfig in hazelcastInstance.maps && hazelcastInstance.maps[kafkaConfig] == map[]
    modifies hazelcastInstance
    ensures var seeded := SeedConfig(map[], ConfigEntries(properties), 0, fault);
      hazelcastInstance.maps == old(hazelcastInstance.maps)[kafkaConfig := seeded.0] && ok == seeded.1
    ensures ok ==> fault.None?
    ensures fault != Some(CheckConfig)
    ensures hazelcastInstance.catalog == old(hazelcastInstance.catalog)
  {
    ghost var e := ConfigEntries(properties);
    var put := hazelcastInstance.Put(kafkaConfig, BootstrapServersConfig,
                                     GetProperty(properties, BootstrapServersConfig));
    if !put {
      assert old(hazelcastInstance.maps)[kafkaConfig := map[]] == old(hazelcastInstance.maps);
      return false, Some(PutConfig(0));
    }
    ghost var m1 := hazelcastInstance.maps[kafkaConfig];
    put := hazelcastInstance.Put(kafkaConfig, KeyDeserializerClassConfig,
                                 GetProperty(properties, KeyDeserializerClassConfig));
    if !put {
      assert SeedConfig(map[], e, 0, Some(PutConfig(1))) == SeedConfig(m1, e[1..], 1, Some(PutConfig(1)));
      assert SeedConfig(m1, e[1..], 1, Some(PutConfig(1))) == (m1, false);
      return false, Some(PutConfig(1));
    }
    ghost var m2 := hazelcastInstance.maps[kafkaConfig];
    assert hazelcastInstance.maps == old(hazelcastInstance.maps)[kafkaConfig := m2];
    put := hazelcastInstance.Put(kafkaConfig, ValueDeserializerClassConfig,
                                 GetProperty(properties, ValueDeserializerClassConfig));
    if !put {
      ghost var f := Some(PutConfig(2));
      assert SeedConfig(map[], e, 0, f) == SeedConfig(m1, e[1..], 1, f);
      assert SeedConfig(m1, e[1..], 1, f) == SeedConfig(m2, e[2..], 2, f);
      assert SeedConfig(m2, e[2..], 2, f) == (m2, false);
      return false, f;
    }
    ghost var m3 := hazelcastInstance.maps[kafkaConfig];
    assert hazelcastInstance.maps == old(hazelcastInstance.maps)[kafkaConfig := m3];
    assert SeedConfig(map[], e, 0, None) == SeedConfig(m1, e[1..], 1, None);
    assert SeedConfig(m1, e[1..], 1, None) == SeedConfig(m2, e[2..], 2, None);
    assert SeedConfig(m2, e[2..], 2, None) == SeedConfig(m3, e[3..], 3, None);
    ok, fault := true, None;
  }

  /** The symbols block of loadNeededData: if the container is empty, put
      one SymbolInfo per listed symbol in a single putAll. `listing` is what
      the Nasdaq file reader returns (None: it threw). */
  method LoadSymbols(hazelcastInstance: Instance, symbols: string, listing: Option<Listing>)
    returns (ok: bool, ghost fault: Option<LoadStep>)
    requires symbols in hazelcastInstance.maps
    modifies hazelcastInstance
    ensures LoadResult(hazelcastInstance.maps, ok)
      == SymbolsPhase(old(hazelcastInstance.maps), symbols, listing, fault)
    ensures fault.None? || fault == Some(CheckSymbols) || (fault.Some? && fault.value.PutSymbols?)
    ensures hazelcastInstance.catalog == old(hazelcastInstance.catalog)
  {
    var answered, empty := hazelcastInstance.IsEmpty(symbols);
    if !answered {
      return false, Some(CheckSymbols);
    }
    if !empty {
      return true, None;
    }
    if listing.None? {
      return false, None;
    }
    var localMap := SymbolRecords(listing.value);
    var put, written := hazelcastInstance.PutAll(symbols, localMap);
    if !put {
      return false, Some(PutSymbols(written));
    }
    ok, fault := true, None;
  }

  /** Seeds the Kafka-config container and the symbols container, each only
      if it is empty. Any failure makes the result false; nothing is undone.
      The ghost `fault` records which remote call threw, if one did. */
  method LoadNeededData(hazelcastInstance: Instance, n: Names, bootstrapServers: string,
                        kafkaSourceProperties: string -> Properties, listing: Option<Listing>)
    returns (ok: bool, ghost fault: Option<LoadStep>)
    modifies hazelcastInstance
    ensures LoadResult(hazelcastInstance.maps, ok)
      == Load(old(hazelcastInstance.maps), n.kafkaConfig, n.symbols,
              kafkaSourceProperties(bootstrapServers), listing, fault)
    ensures hazelcastInstance.catalog == old(hazelcastInstance.catalog)
  {
    hazelcastInstance.GetMap(n.kafkaConfig);
    hazelcastInstance.GetMap(n.symbols);
    ghost var s0 := hazelcastInstance.maps;
    ok, fault := LoadKafkaConfig(hazelcastInstance, n.kafkaConfig, bootstrapServers, kafkaSourceProperties);
    if !ok {
      return;
    }
    ok, fault := LoadSymbols(hazelcastInstance, n.symbols, listing);
    ConfigPhaseIgnoresLaterFaults(s0, n.kafkaConfig, kafkaSourceProperties(bootstrapServers), fault);
  }

  /** Sends one statement to the SQL engine; true iff execution did not fail. */
  method Define(definition: string, hazelcastInstance: Instance) returns (ok: bool, ghost reachable: bool)
    modifies hazelcastInstance
    ensures (hazelcastInstance.catalog, ok) == Catalog.Execute(old(hazelcastInstance.catalog), definition, reachable)
    ensures ok <==> Catalog.Succeeds(definition, reachable)
    ensures hazelcastInstance.maps == old(hazelcastInstance.maps)
  {
    ok, reachable := hazelcastInstance.Execute(definition);
  }

  /** Registers the mapping over the Kafka topic of trades. */
  method DefineKafka(hazelcastInstance: Instance, n: Names, bootstrapServers: string)
    returns (ok: bool, ghost reachable: seq<bool>)
    modifies hazelcastInstance
    ensures |reachable| == 1
    ensures (hazelcastInstance.catalog, ok)
      == Catalog.Install(old(hazelcastInstance.catalog), Statements(KafkaDefinitions(n, bootstrapServers)), reachable)
    ensures hazelcastInstance.maps == old(hazelcastInstance.maps)
  {
    var definition1 := Render(KafkaTrades(n, bootstrapServers));
    ghost var up;
    ok, up := Define(definition1, hazelcastInstance);
    reachable := [up];
    Catalog.InstallSnoc(old(hazelcastInstance.catalog), [], [], definition1, up);
    assert Statements(KafkaDefinitions(n, bootstrapServers)) == [] + [definition1];
  }

  /** Registers the five IMap mappings, attempting each whatever the others
      returned. The statements are rendered from the definitions listed in
      IMapDefinitions, in call order. */
  method DefineIMap(hazelcastInstance: Instance, n: Names, classes: ClassNames) returns (ok: bool, ghost reachable: seq<bool>)
    modifies hazelcastInstance
    ensures |reachable| == 5
    ensures (hazelcastInstance.catalog, ok)
      == Catalog.Install(old(hazelcastInstance.catalog), Statements(IMapDefinitions(n, classes)), reachable)
    ensures hazelcastInstance.maps == old(hazelcastInstance.maps)
  {
    var defs := IMapDefinitions(n, classes);
    var definition1 := Render(defs[0]);
    var definition2 := Render(defs[1]);
    var definition3 := Render(defs[2]);
    var definition4 := Render(defs[3]);
    var definition5 := Render(defs[4]);
    StatementsOfFive(defs);
    ghost var c := old(hazelcastInstance.catalog);
    ghost var up;
    var r;

    ok := true;
    reachable := [];
    ghost var done: seq<string> := [];
    ghost var before := hazelcastInstance.catalog;
    r, up := Define(definition1, hazelcastInstance);
    Catalog.InstallStep(c, done, reachable, definition1, up, before, ok, hazelcastInstance.catalog, r);
    ok := ok && r;
    reachable := reachable + [up];
    done := done + [definition1];
    before := hazelcastInstance.catalog;
    r, up := Define(definition2, hazelcastInstance);
    Catalog.InstallStep(c, done, reachable, definition2, up, before, ok, hazelcastInstance.catalog, r);
    ok := ok && r;
    reachable := reachable + [up];
    done := done + [definition2];
    before := hazelcastInstance.catalog;
    r, up := Define(definition3, hazelcastInstance);
    Catalog.InstallStep(c, done, reachable, definition3, up, before, ok, hazelcastInstance.catalog, r);
    ok := ok && r;
    reachable := reachable + [up];
    done := done + [definition3];
    before := hazelcastInstance.catalog;
    r, up := Define(definition4, hazelcastInstance);
    Catalog.InstallStep(c, done, reachable, definition4, up, before, ok, hazelcastInstance.catalog, r);
    ok := ok && r;
    reachable := reachable + [up];
    done := done + [definition4];
    before := hazelcastInstance.catalog;
    r, up := Define(definition5, hazelcastInstance);
    Catalog.InstallStep(c, done, reachable, definition5, up, before, ok, hazelcastInstance.catalog, r);
    ok := ok && r;
    reachable := reachable + [up];
    done := done + [definition5];
    Catalog.Appended(definition1, definition2, definition3, definition4, definition5);
  }

  /** Registers the two further IMap mappings, attempting both; their
      definitions are listed in IMapDefinitions2. */
  method DefineIMap2(hazelcastInstance: Instance, n: Names) returns (ok: bool, ghost reachable: seq<bool>)
    modifies hazelcastInstance
    ensures |reachable| == 2
    ensures (hazelcastInstance.catalog, ok)
      == Catalog.Install(old(hazelcastInstance.catalog), Statements(IMapDefinitions2(n)), reachable)
    ensures hazelcastInstance.maps == old(hazelcastInstance.maps)
  {
    var defs := IMapDefinitions2(n);
    var definition6 := Render(defs[0]);
    var definition7 := Render(defs[1]);
    assert Statements(defs) == [definition6, definition7];
    ghost var c := old(hazelcastInstance.catalog);
    ghost var up;
    var r;

    ok := true;
    reachable := [];
    ghost var done: seq<string> := [];
    ghost var before := hazelcastInstance.catalog;
    r, up := Define(definition6, hazelcastInstance);
    Catalog.InstallStep(c, done, reachable, definition6, up, before, ok, hazelcastInstance.catalog, r);
    ok := ok && r;
    reachable := reachable + [up];
    done := done + [definition6];
    before := hazelcastInstance.catalog;
    r, up := Define(definition7, hazelcastInstance);
    Catalog.InstallStep(c, done, reachable, definition7, up, before, ok, hazelcastInstance.catalog, r);
    ok := ok && r;
    reachable := reachable + [up];
    done := done + [definition7];
    assert done == [definition6, definition7];
  }

  /** Registers every mapping: the Kafka one, then defineIMap's and
      defineIMap2's, AND-ing the three results without short-circuit. */
  method DefineQueryableObjects(hazelcastInstance: Instance, n: Names, classes: ClassNames,
                                bootstrapServers: string)
    returns (ok: bool, ghost reachable: seq<bool>)
    modifies hazelcastInstance
    ensures |reachable| == 8
    ensures (hazelcastInstance.catalog, ok)
      == Catalog.Install(old(hazelcastInstance.catalog), Statements(AllDefinitions(n, classes, bootstrapServers)), reachable)
    ensures hazelcastInstance.maps == old(hazelcastInstance.maps)
  {
    ghost var c := old(hazelcastInstance.catalog);
    ghost var kafka := Statements(KafkaDefinitions(n, bootstrapServers));
    ghost var imaps := Statements(IMapDefinitions(n, classes));
    ghost var imaps2 := Statements(IMapDefinitions2(n));
    var r;
    ghost var r1, r2, r3;

    ok := true;
    r, r1 := DefineKafka(hazelcastInstance, n, bootstrapServers);
    ok := ok && r;
    ghost var c1 := hazelcastInstance.catalog;
    r, r2 := DefineIMap(hazelcastInstance, n, classes);
    ok := ok && r;
    ghost var c2 := hazelcastInstance.catalog;
    r, r3 := DefineIMap2(hazelcastInstance, n);
    ok := ok && r;
    reachable := r1 + r2 + r3;

    Catalog.InstallAppend(c, kafka, r1, imaps, r2);
    Catalog.InstallAppend(c, kafka + imaps, r1 + r2, imaps2, r3);
    StatementsAppend(KafkaDefinitions(n, bootstrapServers), IMapDefinitions(n, classes));
    StatementsAppend(KafkaDefinitions(n, bootstrapServers) + IMapDefinitions(n, classes), IMapDefinitions2(n));
  }

  /** The eight statements are all readable and register pairwise distinct
      names. */
  lemma AllStatementsDistinct(n: Names, classes: ClassNames, bootstrapServers: string)
    requires n.Valid()
    ensures var statements := Statements(AllDefinitions(n, classes, bootstrapServers));
      && |statements| == 8
      && Catalog.DistinctNames(statements)
      && (forall s :: s in statements ==> ParseName(s).Some?)
  {
    AllStatementsNames(n, classes, bootstrapServers);
    MappingNamesDistinct(n);
    Catalog.NamedStatementsDistinct(Statements(AllDefinitions(n, classes, bootstrapServers)), MappingNames(n));
  }

  /** A fully successful defineQueryableObjects registers all eight names,
      the prefixed Kafka mapping beside the IMap mappings, each under its own
      statement. */
  lemma DefineQueryableObjectsRegistersAll(c: Catalog.Catalog, n: Names, classes: ClassNames,
                                           bootstrapServers: string)
    requires n.Valid()
    ensures var statements := Statements(AllDefinitions(n, classes, bootstrapServers));
      var r := Catalog.Install(c, statements, Catalog.AllReachable(8));
      && r.1
      && (forall i :: 0 <= i < 8 ==> MappingNames(n)[i] in r.0)
      && (forall i :: 0 <= i < 8 && MappingNames(n)[i] !in c ==> r.0[MappingNames(n)[i]] == statements[i])
  {
    var statements := Statements(AllDefinitions(n, classes, bootstrapServers));
    AllStatementsNames(n, classes, bootstrapServers);
    AllStatementsDistinct(n, classes, bootstrapServers);
    Catalog.AllSucceedingInstall(c, statements);
    Catalog.InstallAttemptsAll(c, statements, Catalog.AllReachable(8));
    forall i | 0 <= i < 8 ensures MappingNames(n)[i] in Catalog.Install(c, statements, Catalog.AllReachable(8)).0 {
      assert statements[i] in statements;
    }
    forall i | 0 <= i < 8 && MappingNames(n)[i] !in c
      ensures Catalog.Install(c, statements, Catalog.AllReachable(8)).0[MappingNames(n)[i]] == statements[i]
    {
      assert statements[i] in statements;
    }
  }

  /** A defineQueryableObjects call that failed part-way, followed by one
      that succeeds throughout, leaves the catalog one fully successful call
      would have left. */
  lemma DefineQueryableObjectsConverges(c: Catalog.Catalog, n: Names, classes: ClassNames,
                                        bootstrapServers: string, reachable: seq<bool>)
    requires n.Valid()
    requires |reachable| == 8
    ensures var statements := Statements(AllDefinitions(n, classes, bootstrapServers));
      var partial := Catalog.Install(c, statements, reachable).0;
      Catalog.Install(partial, statements, Catalog.AllReachable(8)).0
        == Catalog.Install(c, statements, Catalog.AllReachable(8)).0
  {
    AllStatementsDistinct(n, classes, bootstrapServers);
    Catalog.InstallConverges(c, Statements(AllDefinitions(n, classes, bootstrapServers)), reachable);
  }

  /** The whole bootstrap is idempotent: after createNeededObjects, a
      successful loadNeededData and a successful defineQueryableObjects, a
      second round of the three calls changes no container and no mapping,
      whichever of its remote calls fail. */
  lemma BootstrapIdempotent(s: Store, c: Catalog.Catalog, n: Names, classes: ClassNames, bootstrapServers: string,
                            props: Properties, listing: Option<Listing>,
                            first: Option<LoadStep>, second: Option<LoadStep>, reachable: seq<bool>)
    requires |reachable| == 8
    requires Load(TouchAll(s, n.imapNames), n.kafkaConfig, n.symbols, props, listing, first).ok
    ensures var statements := Statements(AllDefinitions(n, classes, bootstrapServers));
      var s1 := Load(TouchAll(s, n.imapNames), n.kafkaConfig, n.symbols, props, listing, first).store;
      var c1 := Catalog.Install(c, statements, Catalog.AllReachable(8)).0;
      && Load(TouchAll(s1, n.imapNames), n.kafkaConfig, n.symbols, props, listing, second).store == s1
      && Catalog.Install(c1, statements, reachable).0 == c1
  {
    var s0 := TouchAll(s, n.imapNames);
    var s1 := Load(s0, n.kafkaConfig, n.symbols, props, listing, first).store;
    TouchAllContents(s, n.imapNames);
    LoadFrame(s0, n.kafkaConfig, n.symbols, props, listing, first);
    forall i | 0 <= i < |n.imapNames| ensures n.imapNames[i] in s1 {
      assert n.imapNames[i] in n.imapNames;
    }
    TouchAllPresent(s1, n.imapNames);
    LoadIdempotent(s0, n.kafkaConfig, n.symbols, props, listing, first, second);
    Catalog.InstallIdempotent(c, Statements(AllDefinitions(n, classes, bootstrapServers)), reachable);
  }
}
