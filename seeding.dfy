/**
 * What loadNeededData does to the store, as a function of the store it
 * starts from, its inputs, and the collaborator call (if any) that throws.
 */
module Seeding {
  import opened Wrappers
  import opened Store

  /** Kafka consumer property names (the ConsumerConfig constants). */
  const BootstrapServersConfig: string := "bootstrap.servers"
  const KeyDeserializerClassConfig: string := "key.deserializer"
  const ValueDeserializerClassConfig: string := "value.deserializer"

  /** java.util.Properties, as returned for the Kafka source. */
  type Properties = map<string, string>

  /** The Nasdaq listing: symbol to (security name, market category,
      financial status), the f0, f1 and f2 of a Tuple3. */
  type Listing = map<string, (string, MarketCategory, FinancialStatus)>

  /** The collaborator calls of loadNeededData that can throw. `PutConfig(i)`
      is the i-th of the three puts into the Kafka-config container;
      `SizeConfig` is the size() evaluated for the trace message after them;
      `PutSymbols(written)` is a putAll that threw after storing the records
      whose keys are in `written`. */
  datatype LoadStep = CheckConfig | PutConfig(index: nat) | SizeConfig | CheckSymbols
                    | PutSymbols(written: set<string>)

  datatype LoadResult = LoadResult(store: Store, ok: bool)

  /** Properties.getProperty: the value, or None (Java's null) if absent. */
  function GetProperty(p: Properties, key: string): Option<Value> {
    if key in p then Some(Text(p[key])) else None
  }

  /** The three puts into the Kafka-config container, in order. */
  function ConfigEntries(p: Properties): seq<(string, Option<Value>)> {
    [(BootstrapServersConfig, GetProperty(p, BootstrapServersConfig)),
     (KeyDeserializerClassConfig, GetProperty(p, KeyDeserializerClassConfig)),
     (ValueDeserializerClassConfig, GetProperty(p, ValueDeserializerClassConfig))]
  }

  /** The properties hold all three keys the seed copies. */
  predicate Complete(p: Properties) {
    BootstrapServersConfig in p && KeyDeserializerClassConfig in p && ValueDeserializerClassConfig in p
  }

  /** The Kafka-config container a complete seed produces. */
  function ConfigMap(p: Properties): Container
    requires Complete(p)
  {
    map[BootstrapServersConfig := Text(p[BootstrapServersConfig]),
        KeyDeserializerClassConfig := Text(p[KeyDeserializerClassConfig]),
        ValueDeserializerClassConfig := Text(p[ValueDeserializerClassConfig])]
  }

  /** The symbol records derived from the listing, one per symbol. */
  function SymbolRecords(l: Listing): (r: Container)
    ensures r.Keys == l.Keys
  {
    map k | k in l :: Symbol(SymbolInfo(l[k].0, l[k].1, l[k].2))
  }

  /** Reads the listing back out of symbol records. */
  function ListingOf(c: Container): Listing {
    map k | k in c && c[k].Symbol? ::
      (c[k].info.securityName, c[k].info.marketCategory, c[k].info.financialStatus)
  }

  /** Puts the entries in order; a null value (IMap.put rejects it with a
      NullPointerException) or a failing put stops the sequence. */
  function SeedConfig(m: Container, entries: seq<(string, Option<Value>)>, index: nat, fault: Option<LoadStep>)
    : (r: (Container, bool))
    ensures m.Keys <= r.0.Keys
    decreases |entries|
  {
    if entries == [] then (m, true)
    else if entries[0].1.None? || fault == Some(PutConfig(index)) then (m, false)
    else SeedConfig(m[entries[0].0 := entries[0].1.value], entries[1..], index + 1, fault)
  }

  /** The Kafka-config block of loadNeededData on a store where the
      container exists: isEmpty, then the three puts and the size() of the
      trace message if it was empty. The flag is false when the block
      throws. */
  function ConfigPhase(s0: Store, kafkaConfig: string, props: Properties, fault: Option<LoadStep>)
    : (r: (Store, bool))
    requires kafkaConfig in s0
    ensures r.0.Keys == s0.Keys
    ensures forall k :: k in s0 && k != kafkaConfig ==> r.0[k] == s0[k]
  {
    if fault == Some(CheckConfig) then (s0, false)
    else if s0[kafkaConfig] != map[] then (s0, true)
    else
      var seeded := SeedConfig(map[], ConfigEntries(props), 0, fault);
      (s0[kafkaConfig := seeded.0], seeded.1 && fault != Some(SizeConfig))
  }

  /** The symbols block: isEmpty, then one putAll of the listing's records
      if it was empty. `listing` is None when reading the file throws. */
  function SymbolsPhase(s1: Store, symbols: string, listing: Option<Listing>, fault: Option<LoadStep>)
    : (r: LoadResult)
    requires symbols in s1
    ensures r.store.Keys == s1.Keys
    ensures forall k :: k in s1 && k != symbols ==> r.store[k] == s1[k]
  {
    if fault == Some(CheckSymbols) then LoadResult(s1, false)
    else if s1[symbols] != map[] then LoadResult(s1, true)
    else if listing.None? then LoadResult(s1, false)
    else PutAllRecords(s1, symbols, SymbolRecords(listing.value), fault)
  }

  /** The putAll of the symbols block: all records, or when it throws the
      part it stored before throwing. */
  function PutAllRecords(s1: Store, symbols: string, records: Container, fault: Option<LoadStep>): LoadResult
    requires symbols in s1
  {
    if fault.Some? && fault.value.PutSymbols? then
      LoadResult(s1[symbols := s1[symbols] + Restrict(records, fault.value.written)], false)
    else LoadResult(s1[symbols := s1[symbols] + records], true)
  }

  /** loadNeededData against store s: both containers are touched, then the
      symbols block runs only if the Kafka-config block did not throw; there
      is no rollback. */
  function Load(s: Store, kafkaConfig: string, symbols: string, props: Properties,
                listing: Option<Listing>, fault: Option<LoadStep>): (r: LoadResult)
    ensures r.store.Keys == s.Keys + {kafkaConfig, symbols}
  {
    var s0 := Touch(Touch(s, kafkaConfig), symbols);
    var config := ConfigPhase(s0, kafkaConfig, props, fault);
    if !config.1 then LoadResult(config.0, false)
    else SymbolsPhase(config.0, symbols, listing, fault)
  }

  /** A config seed from empty: it succeeds iff all three properties are
      present and none of the three puts fails, and then it holds exactly the
      three properties. */
  lemma SeedConfigSpec(m: Container, p: Properties, fault: Option<LoadStep>)
    ensures var r := SeedConfig(m, ConfigEntries(p), 0, fault);
      && (r.1 <==> Complete(p) && fault != Some(PutConfig(0)) && fault != Some(PutConfig(1))
                   && fault != Some(PutConfig(2)))
      && (r.1 ==> r.0 == m + ConfigMap(p))
  {
    var e := ConfigEntries(p);
    var f0, f1, f2 := Some(PutConfig(0)), Some(PutConfig(1)), Some(PutConfig(2));
    assert |BootstrapServersConfig| == 17 && |KeyDeserializerClassConfig| == 16
      && |ValueDeserializerClassConfig| == 18;
    if e[0].1.None? || fault == f0 {
    } else {
      var m1 := m[e[0].0 := e[0].1.value];
      assert SeedConfig(m, e, 0, fault) == SeedConfig(m1, e[1..], 1, fault);
      if e[1].1.None? || fault == f1 {
      } else {
        var m2 := m1[e[1].0 := e[1].1.value];
        assert SeedConfig(m1, e[1..], 1, fault) == SeedConfig(m2, e[2..], 2, fault);
        if e[2].1.None? || fault == f2 {
        } else {
          var m3 := m2[e[2].0 := e[2].1.value];
          assert SeedConfig(m2, e[2..], 2, fault) == SeedConfig(m3, e[3..], 3, fault);
          assert e[3..] == [];
          assert m3 == m + ConfigMap(p);
        }
      }
    }
  }

  /** The puts into the Kafka-config container depend on no fault but
      their own. */
  lemma {:induction false} SeedConfigIgnoresOtherFaults(m: Container, entries: seq<(string, Option<Value>)>,
                                                        index: nat, fault: Option<LoadStep>)
    requires fault.None? || !fault.value.PutConfig?
    ensures SeedConfig(m, entries, index, fault) == SeedConfig(m, entries, index, None)
    decreases |entries|
  {
    if entries != [] && entries[0].1.Some? {
      SeedConfigIgnoresOtherFaults(m[entries[0].0 := entries[0].1.value], entries[1..], index + 1, fault);
    }
  }

  /** A fault in the symbols block does not reach back into the Kafka-config
      block. */
  lemma ConfigPhaseIgnoresLaterFaults(s0: Store, kafkaConfig: string, props: Properties, fault: Option<LoadStep>)
    requires kafkaConfig in s0
    requires fault.None? || fault.value.CheckSymbols? || fault.value.PutSymbols?
    ensures ConfigPhase(s0, kafkaConfig, props, fault) == ConfigPhase(s0, kafkaConfig, props, None)
  {
    SeedConfigIgnoresOtherFaults(map[], ConfigEntries(props), 0, fault);
  }

  /** Each symbol of the listing gets a record whose securityName,
      marketCategory and financialStatus are the f0, f1 and f2 of its tuple,
      and no other key is written; the listing reads back unchanged. */
  lemma SymbolRecordsSpec(l: Listing)
    ensures SymbolRecords(l).Keys == l.Keys
    ensures forall k :: k in l ==>
      && SymbolRecords(l)[k].Symbol?
      && SymbolRecords(l)[k].info.securityName == l[k].0
      && SymbolRecords(l)[k].info.marketCategory == l[k].1
      && SymbolRecords(l)[k].info.financialStatus == l[k].2
    ensures ListingOf(SymbolRecords(l)) == l
  {
  }

  /** Only the two seeded containers can change; both exist afterwards. */
  lemma LoadFrame(s: Store, kafkaConfig: string, symbols: string, props: Properties,
                  listing: Option<Listing>, fault: Option<LoadStep>)
    ensures var r := Load(s, kafkaConfig, symbols, props, listing, fault).store;
      && r.Keys == s.Keys + {kafkaConfig, symbols}
      && (forall k :: k in s && k != kafkaConfig && k != symbols ==> r[k] == s[k])
  {
  }

  /** Skip-if-non-empty: a container found non-empty is left exactly as it
      was, whatever else happens during the call. */
  lemma LoadSkipsNonEmpty(s: Store, kafkaConfig: string, symbols: string, props: Properties,
                          listing: Option<Listing>, fault: Option<LoadStep>)
    ensures var r := Load(s, kafkaConfig, symbols, props, listing, fault).store;
      && (kafkaConfig in s && s[kafkaConfig] != map[] ==> r[kafkaConfig] == s[kafkaConfig])
      && (symbols in s && s[symbols] != map[] ==> r[symbols] == s[symbols])
  {
  }

  /** An empty Kafka-config container receives exactly the three consumer
      properties when no put fails; a missing property makes the call fail. */
  lemma LoadSeedsConfig(s: Store, kafkaConfig: string, symbols: string, props: Properties,
                        listing: Option<Listing>, fault: Option<LoadStep>)
    requires kafkaConfig !in s || s[kafkaConfig] == map[]
    ensures var r := Load(s, kafkaConfig, symbols, props, listing, fault);
      && (Complete(props) && fault != Some(CheckConfig) && fault != Some(PutConfig(0))
          && fault != Some(PutConfig(1)) && fault != Some(PutConfig(2))
          ==> r.store[kafkaConfig] == ConfigMap(props))
      && (!Complete(props) && fault != Some(CheckConfig) ==> !r.ok)
  {
    var s0 := Touch(Touch(s, kafkaConfig), symbols);
    assert s0[kafkaConfig] == map[];
    if fault != Some(CheckConfig) {
      ConfigPhaseSeeds(s0, kafkaConfig, props, fault);
      var config := ConfigPhase(s0, kafkaConfig, props, fault);
      if Complete(props) && fault != Some(PutConfig(0)) && fault != Some(PutConfig(1))
         && fault != Some(PutConfig(2)) {
        assert BootstrapServersConfig in ConfigMap(props);
        assert config.0[kafkaConfig] == ConfigMap(props);
      }
    }
  }

  /** An empty symbols container receives exactly the listing's records when
      nothing throws. */
  lemma LoadSeedsSymbols(s: Store, kafkaConfig: string, symbols: string, props: Properties, l: Listing)
    requires kafkaConfig != symbols
    requires symbols !in s || s[symbols] == map[]
    requires Complete(props) || (kafkaConfig in s && s[kafkaConfig] != map[])
    ensures var r := Load(s, kafkaConfig, symbols, props, Some(l), None);
      r.ok && r.store[symbols] == SymbolRecords(l)
  {
    var s0 := Touch(Touch(s, kafkaConfig), symbols);
    var config := ConfigPhase(s0, kafkaConfig, props, None);
    if s0[kafkaConfig] == map[] {
      ConfigPhaseSeeds(s0, kafkaConfig, props, None);
    }
    assert config.1 && config.0[symbols] == map[];
    assert map[] + SymbolRecords(l) == SymbolRecords(l);
  }

  /** An empty Kafka-config container is seeded with exactly the three
      consumer properties when no put throws, and the block completes when
      the size() after the puts does not throw either. */
  lemma ConfigPhaseSeeds(s0: Store, kafkaConfig: string, props: Properties, fault: Option<LoadStep>)
    requires kafkaConfig in s0 && s0[kafkaConfig] == map[]
    requires fault != Some(CheckConfig)
    ensures var r := ConfigPhase(s0, kafkaConfig, props, fault);
      && (r.1 <==> Complete(props) && fault != Some(PutConfig(0)) && fault != Some(PutConfig(1))
                   && fault != Some(PutConfig(2)) && fault != Some(SizeConfig))
      && ((Complete(props) && fault != Some(PutConfig(0)) && fault != Some(PutConfig(1))
           && fault != Some(PutConfig(2))) ==> r.0 == s0[kafkaConfig := ConfigMap(props)])
  {
    SeedConfigSpec(map[], props, fault);
    if Complete(props) {
      assert map[] + ConfigMap(props) == ConfigMap(props);
    }
  }

  /** After a block that completed, the Kafka-config container is non-empty. */
  lemma ConfigPhaseLeavesNonEmpty(s0: Store, kafkaConfig: string, props: Properties, fault: Option<LoadStep>)
    requires kafkaConfig in s0
    requires ConfigPhase(s0, kafkaConfig, props, fault).1
    ensures ConfigPhase(s0, kafkaConfig, props, fault).0[kafkaConfig] != map[]
  {
    if s0[kafkaConfig] == map[] {
      ConfigPhaseSeeds(s0, kafkaConfig, props, fault);
      assert BootstrapServersConfig in ConfigMap(props);
    }
  }

  /** A call on a store whose Kafka-config container is non-empty and whose
      symbols container already holds what the listing would add changes
      nothing. */
  lemma LoadOnSeeded(t: Store, kafkaConfig: string, symbols: string, props: Properties,
                     listing: Option<Listing>, fault: Option<LoadStep>)
    requires kafkaConfig in t && symbols in t && t[kafkaConfig] != map[]
    requires t[symbols] == map[] && listing.Some? ==> t[symbols] + SymbolRecords(listing.value) == t[symbols]
    ensures Load(t, kafkaConfig, symbols, props, listing, fault).store == t
  {
    assert Touch(Touch(t, kafkaConfig), symbols) == t;
    assert ConfigPhase(t, kafkaConfig, props, fault).0 == t;
    if t[symbols] == map[] && listing.Some? {
      var records := SymbolRecords(listing.value);
      assert records == map[];
      assert t[symbols := t[symbols] + records] == t;
      if fault.Some? && fault.value.PutSymbols? {
        assert Restrict(records, fault.value.written) == map[];
      }
    }
  }

  /** A successful call seeds both containers for good: a second call with
      the same inputs changes no container, whatever fails during it. */
  lemma LoadIdempotent(s: Store, kafkaConfig: string, symbols: string, props: Properties,
                       listing: Option<Listing>, first: Option<LoadStep>, second: Option<LoadStep>)
    requires Load(s, kafkaConfig, symbols, props, listing, first).ok
    ensures var once := Load(s, kafkaConfig, symbols, props, listing, first).store;
      Load(once, kafkaConfig, symbols, props, listing, second).store == once
  {
    var s0 := Touch(Touch(s, kafkaConfig), symbols);
    var c0 := ConfigPhase(s0, kafkaConfig, props, first).0;
    var once := SymbolsPhase(c0, symbols, listing, first).store;
    ConfigPhaseLeavesNonEmpty(s0, kafkaConfig, props, first);
    if c0[symbols] != map[] {
      assert once == c0;
    } else {
      assert once == c0[symbols := c0[symbols] + SymbolRecords(listing.value)];
    }
    LoadOnSeeded(once, kafkaConfig, symbols, props, listing, second);
  }

  /** No rollback: when the call throws after the three config puts (at the
      size() of the trace message or in the symbols block), the Kafka-config
      seed stays, the symbols container keeps only what a failed putAll
      stored, and the call reports failure. */
  lemma LoadNoRollback(s: Store, kafkaConfig: string, symbols: string, props: Properties,
                       listing: Option<Listing>, fault: Option<LoadStep>)
    requires kafkaConfig != symbols
    requires kafkaConfig !in s || s[kafkaConfig] == map[]
    requires symbols !in s || s[symbols] == map[]
    requires Complete(props)
    requires || fault == Some(SizeConfig) || fault == Some(CheckSymbols)
             || (fault.Some? && fault.value.PutSymbols?) || (fault.None? && listing.None?)
    ensures var r := Load(s, kafkaConfig, symbols, props, listing, fault);
      && !r.ok
      && r.store[kafkaConfig] == ConfigMap(props)
      && r.store[symbols] == if fault.Some? && fault.value.PutSymbols? && listing.Some?
                             then Restrict(SymbolRecords(listing.value), fault.value.written)
                             else map[]
  {
    var s0 := Touch(Touch(s, kafkaConfig), symbols);
    ConfigPhaseSeeds(s0, kafkaConfig, props, fault);
    var config := ConfigPhase(s0, kafkaConfig, props, fault);
    assert config.0 == s0[kafkaConfig := ConfigMap(props)];
    assert config.0[symbols] == map[];
    if fault.Some? && fault.value.PutSymbols? && listing.Some? {
      assert map[] + Restrict(SymbolRecords(listing.value), fault.value.written)
        == Restrict(SymbolRecords(listing.value), fault.value.written);
    }
  }

  /** A putAll that throws into an empty symbols container leaves there
      exactly the records it stored, and the call reports failure. */
  lemma FailedPutAllKeepsPart(s: Store, kafkaConfig: string, symbols: string, props: Properties,
                              l: Listing, written: set<string>)
    requires kafkaConfig != symbols
    requires symbols !in s || s[symbols] == map[]
    requires Complete(props) || (kafkaConfig in s && s[kafkaConfig] != map[])
    ensures var r := Load(s, kafkaConfig, symbols, props, Some(l), Some(PutSymbols(written)));
      !r.ok && r.store[symbols] == Restrict(SymbolRecords(l), written)
  {
    var fault := Some(PutSymbols(written));
    var s0 := Touch(Touch(s, kafkaConfig), symbols);
    if s0[kafkaConfig] == map[] {
      ConfigPhaseSeeds(s0, kafkaConfig, props, fault);
    }
    var config := ConfigPhase(s0, kafkaConfig, props, fault);
    assert config.1 && config.0[symbols] == map[];
    var part := Restrict(SymbolRecords(l), written);
    assert map[] + part == part;
  }

  /** A putAll that throws after storing part of the records leaves a symbols
      container that is not the full set of records, and that later calls
      never complete, since they find it non-empty. */
  lemma PartialSymbolsSeedIsKept(s: Store, kafkaConfig: string, symbols: string, props: Properties,
                                 l: Listing, written: set<string>, later: Option<LoadStep>)
    requires kafkaConfig != symbols
    requires symbols !in s || s[symbols] == map[]
    requires Complete(props) || (kafkaConfig in s && s[kafkaConfig] != map[])
    requires written * l.Keys != {} && !(l.Keys <= written)
    ensures var r := Load(s, kafkaConfig, symbols, props, Some(l), Some(PutSymbols(written)));
      && !r.ok
      && r.store[symbols] == Restrict(SymbolRecords(l), written)
      && r.store[symbols] != SymbolRecords(l)
      && Load(r.store, kafkaConfig, symbols, props, Some(l), later).store[symbols] == r.store[symbols]
  {
    var r := Load(s, kafkaConfig, symbols, props, Some(l), Some(PutSymbols(written)));
    FailedPutAllKeepsPart(s, kafkaConfig, symbols, props, l, written);
    var part := Restrict(SymbolRecords(l), written);
    var k :| k in written * l.Keys;
    assert k in part;
    var j :| j in l.Keys && j !in written;
    assert j in SymbolRecords(l) && j !in part;
    LoadSkipsNonEmpty(r.store, kafkaConfig, symbols, props, Some(l), later);
  }

  /** A failure between the config puts leaves a partial Kafka config that
      later calls never complete, since they find the container non-empty. */
  lemma PartialConfigSeedIsKept(s: Store, kafkaConfig: string, symbols: string, props: Properties,
                                listing: Option<Listing>, later: Option<LoadStep>)
    requires kafkaConfig !in s || s[kafkaConfig] == map[]
    requires Complete(props)
    ensures var r := Load(s, kafkaConfig, symbols, props, listing, Some(PutConfig(1)));
      && !r.ok
      && r.store[kafkaConfig] == map[BootstrapServersConfig := Text(props[BootstrapServersConfig])]
      && Load(r.store, kafkaConfig, symbols, props, listing, later).store[kafkaConfig] == r.store[kafkaConfig]
  {
    var r := Load(s, kafkaConfig, symbols, props, listing, Some(PutConfig(1)));
    var s0 := Touch(Touch(s, kafkaConfig), symbols);
    assert s0[kafkaConfig] == map[];
    var e := ConfigEntries(props);
    assert SeedConfig(map[], e, 0, Some(PutConfig(1)))
      == SeedConfig(map[BootstrapServersConfig := Text(props[BootstrapServersConfig])], e[1..], 1, Some(PutConfig(1)));
    assert BootstrapServersConfig in r.store[kafkaConfig];
    LoadSkipsNonEmpty(r.store, kafkaConfig, symbols, props, listing, later);
  }

  /** The two getMap calls at the start do not change what a call does. */
  lemma LoadFromTouched(s: Store, kafkaConfig: string, symbols: string, props: Properties,
                        listing: Option<Listing>, fault: Option<LoadStep>)
    ensures Load(Touch(Touch(s, kafkaConfig), symbols), kafkaConfig, symbols, props, listing, fault)
      == Load(s, kafkaConfig, symbols, props, listing, fault)
  {
    var s0 := Touch(Touch(s, kafkaConfig), symbols);
    assert Touch(Touch(s0, kafkaConfig), symbols) == s0;
  }

  /** A call that reports success met no failure on its way. */
  lemma OkCallMetNoFault(s: Store, kafkaConfig: string, symbols: string, props: Properties,
                         listing: Option<Listing>, fault: Option<LoadStep>)
    requires Load(s, kafkaConfig, symbols, props, listing, fault).ok
    ensures Load(s, kafkaConfig, symbols, props, listing, fault)
      == Load(s, kafkaConfig, symbols, props, listing, None)
  {
    var s0 := Touch(Touch(s, kafkaConfig), symbols);
    var config := ConfigPhase(s0, kafkaConfig, props, fault);
    assert config.1;
    if s0[kafkaConfig] == map[] {
      ConfigPhaseSeeds(s0, kafkaConfig, props, fault);
      ConfigPhaseSeeds(s0, kafkaConfig, props, None);
    }
    assert config == ConfigPhase(s0, kafkaConfig, props, None);
  }

  /** A fault-free call after a call that seeded only the Kafka config ends
      where one fault-free call from the start ends. */
  lemma LoadAfterConfigSeed(s: Store, kafkaConfig: string, symbols: string, props: Properties,
                            listing: Option<Listing>)
    requires kafkaConfig != symbols
    requires Complete(props)
    requires Touch(Touch(s, kafkaConfig), symbols)[kafkaConfig] == map[]
    ensures var s1 := Touch(Touch(s, kafkaConfig), symbols)[kafkaConfig := ConfigMap(props)];
      Load(s1, kafkaConfig, symbols, props, listing, None) == Load(s, kafkaConfig, symbols, props, listing, None)
  {
    var s0 := Touch(Touch(s, kafkaConfig), symbols);
    var s1 := s0[kafkaConfig := ConfigMap(props)];
    SeedConfigSpec(map[], props, None);
    assert map[] + ConfigMap(props) == ConfigMap(props);
    assert BootstrapServersConfig in ConfigMap(props);
    assert Touch(Touch(s1, kafkaConfig), symbols) == s1;
  }

  /** A symbols block that throws before storing any record leaves the
      store as it found it. */
  lemma FailedSymbolsPhaseKeepsStore(s1: Store, symbols: string, listing: Option<Listing>, fault: Option<LoadStep>)
    requires symbols in s1
    requires fault.Some? && fault.value.PutSymbols? ==> fault.value.written == {}
    ensures !SymbolsPhase(s1, symbols, listing, fault).ok ==> SymbolsPhase(s1, symbols, listing, fault).store == s1
  {
    if s1[symbols] == map[] && listing.Some? && fault.Some? && fault.value.PutSymbols? {
      assert Restrict(SymbolRecords(listing.value), {}) == map[];
      assert s1[symbols] + map[] == s1[symbols];
      assert s1[symbols := s1[symbols] + map[]] == s1;
    }
  }

  /** Convergence: after a call that failed anywhere but between the config
      puts, one fault-free call reaches the store a single fault-free call
      would have reached. */
  lemma LoadConverges(s: Store, kafkaConfig: string, symbols: string, props: Properties,
                      listing: Option<Listing>, first: Option<LoadStep>)
    requires kafkaConfig != symbols
    requires Complete(props)
    requires first != Some(PutConfig(1)) && first != Some(PutConfig(2))
    requires first.Some? && first.value.PutSymbols? ==> first.value.written == {}
    ensures var after := Load(s, kafkaConfig, symbols, props, listing, first).store;
      Load(after, kafkaConfig, symbols, props, listing, None).store
        == Load(s, kafkaConfig, symbols, props, listing, None).store
  {
    var r := Load(s, kafkaConfig, symbols, props, listing, first);
    var s0 := Touch(Touch(s, kafkaConfig), symbols);
    var config := ConfigPhase(s0, kafkaConfig, props, first);
    if r.ok {
      OkCallMetNoFault(s, kafkaConfig, symbols, props, listing, first);
      LoadIdempotent(s, kafkaConfig, symbols, props, listing, None, None);
      return;
    }
    // A failed call leaves the store the Kafka-config block produced.
    if config.1 {
      FailedSymbolsPhaseKeepsStore(config.0, symbols, listing, first);
    }
    assert r.store == config.0;
    if s0[kafkaConfig] != map[] || first == Some(CheckConfig) {
      assert config.0 == s0;
    } else if first == Some(PutConfig(0)) {
      assert SeedConfig(map[], ConfigEntries(props), 0, first) == (map[], false);
      assert config.0 == s0;
    } else {
      ConfigPhaseSeeds(s0, kafkaConfig, props, first);
      LoadAfterConfigSeed(s, kafkaConfig, symbols, props, listing);
      return;
    }
    LoadFromTouched(s, kafkaConfig, symbols, props, listing, None);
  }

  /** Re-putting entries whose values are already in place changes
      nothing, however far the puts get. */
  lemma {:induction false} ReputIsNoOp(m: Container, entries: seq<(string, Option<Value>)>,
                                       index: nat, fault: Option<LoadStep>)
    requires forall i :: 0 <= i < |entries| && entries[i].1.Some? ==>
      entries[i].0 in m && m[entries[i].0] == entries[i].1.value
    ensures SeedConfig(m, entries, index, fault).0 == m
    decreases |entries|
  {
    if entries != [] && !(entries[0].1.None? || fault == Some(PutConfig(index))) {
      assert m[entries[0].0 := entries[0].1.value] == m;
      forall i | 0 <= i < |entries[1..]| && entries[1..][i].1.Some?
        ensures entries[1..][i].0 in m && m[entries[1..][i].0] == entries[1..][i].1.value
      {
        assert entries[1..][i] == entries[i + 1];
      }
      ReputIsNoOp(m, entries[1..], index + 1, fault);
    }
  }

  /** Two callers that both saw the containers empty write the same values:
      the second caller's puts and putAll, complete or cut short, leave the
      first caller's seed as it is. */
  lemma RacingSeedsAgree(m: Container, p: Properties, t: Store, symbols: string, l: Listing,
                         second: Option<LoadStep>)
    requires SeedConfig(m, ConfigEntries(p), 0, None).1
    requires symbols in t && t[symbols] == SymbolRecords(l)
    ensures var once := SeedConfig(m, ConfigEntries(p), 0, None).0;
      SeedConfig(once, ConfigEntries(p), 0, second).0 == once
    ensures PutAllRecords(t, symbols, SymbolRecords(l), second).store == t
  {
    var records := SymbolRecords(l);
    assert records + records == records;
    assert t[symbols := records + records] == t;
    if second.Some? && second.value.PutSymbols? {
      assert records + Restrict(records, second.value.written) == records;
      assert t[symbols := records + Restrict(records, second.value.written)] == t;
    }
    SeedConfigSpec(m, p, None);
    var once := m + ConfigMap(p);
    var e := ConfigEntries(p);
    forall i | 0 <= i < |e| && e[i].1.Some? ensures e[i].0 in once && once[e[i].0] == e[i].1.value {
    }
    ReputIsNoOp(once, e, 0, second);
  }
}
