/**
 * The eight mappings the initializer registers: one over the Kafka topic of
 * trades and seven over IMaps. The container, topic and prefix names live in
 * a constants class that is not part of this model, so they are parameters.
 */
module Definitions {
  import opened Wrappers
  import opened Schema

  /** Names from the constants class the initializer imports. */
  datatype Names = Names(
    kafkaTopicMappingPrefix: string,
    kafkaTopicTrades: string,
    aggregateQueryResults: string,
    alertsMaxVolume: string,
    kafkaConfig: string,
    symbols: string,
    trades: string,
    pythonSentiment: string,
    jobControl: string,
    imapNames: seq<string>)
  {
    /** The IMaps that receive a mapping, in the order they are defined. */
    function MappedIMaps(): seq<string> {
      [aggregateQueryResults, alertsMaxVolume, kafkaConfig, symbols, trades, pythonSentiment, jobControl]
    }

    /** What the constants are taken to satisfy: an identifier as topic
        name, distinct identifiers as IMap names, and a non-empty
        topic-mapping prefix that no IMap name starts with. */
    predicate Valid() {
      && Identifier(kafkaTopicMappingPrefix)
      && Identifier(kafkaTopicTrades)
      && (forall i, j :: 0 <= i < j < |MappedIMaps()| ==> MappedIMaps()[i] != MappedIMaps()[j])
      && (forall i :: 0 <= i < |MappedIMaps()| ==>
            Identifier(MappedIMaps()[i]) && !StartsWith(MappedIMaps()[i], kafkaTopicMappingPrefix))
    }
  }

  const JavaString: string := "java.lang.String"

  /** Canonical names of the Java classes whose `getCanonicalName()` the
      statements embed. Which class a simple name denotes depends on the
      imports and the class path, neither of which is part of this model, so
      the names are an input; `ImportedClassNames` holds the ones the import
      list of the initializer designates. */
  datatype ClassNames = ClassNames(
    tuple3: string,
    jsonValue: string,
    javaString: string,
    symbolInfo: string,
    trade: string)

  const ImportedClassNames: ClassNames := ClassNames(
    "com.hazelcast.jet.datamodel.Tuple3",
    "com.hazelcast.core.HazelcastJsonValue",
    JavaString,
    "hazelcast.platform.demos.banking.trademonitor.SymbolInfo",
    "hazelcast.platform.demos.banking.trademonitor.Trade")

  /** Java-serialised key and value, as most IMap mappings declare them. */
  function JavaOptions(keyClass: string, valueClass: string): seq<(string, string)> {
    [("keyFormat", "java"), ("keyJavaClass", keyClass),
     ("valueFormat", "java"), ("valueJavaClass", valueClass)]
  }

  /** The SQL name of the trades topic: prefixed so it differs from the IMap. */
  function KafkaMappingName(n: Names): string {
    n.kafkaTopicMappingPrefix + n.kafkaTopicTrades
  }

  function KafkaTrades(n: Names, bootstrapServers: string): MappingDef {
    MappingDef(true, KafkaMappingName(n), Some(n.kafkaTopicTrades),
      [("id", "VARCHAR"), ("price", "BIGINT"), ("quantity", "BIGINT"),
       ("symbol", "VARCHAR"), ("timestamp", "BIGINT")],
      Kafka,
      [("keyFormat", "java"), ("keyJavaClass", JavaString),
       ("valueFormat", "json-flat"), ("auto.offset.reset", "earliest"),
       ("bootstrap.servers", bootstrapServers)])
  }

  function AggregateQueryResults(n: Names, classes: ClassNames): MappingDef {
    MappingDef(false, n.aggregateQueryResults, None, [], IMap,
      JavaOptions(JavaString, classes.tuple3))
  }

  function AlertsMaxVolume(n: Names, classes: ClassNames): MappingDef {
    MappingDef(false, n.alertsMaxVolume, None,
      [("__key", "BIGINT"), ("timestamp", "VARCHAR"), ("symbol", "VARCHAR"), ("volume", "BIGINT")],
      IMap,
      [("keyFormat", "java"), ("keyJavaClass", "java.lang.Long"),
       ("valueFormat", "json-flat"), ("valueJavaClass", classes.jsonValue)])
  }

  function KafkaConfig(n: Names, classes: ClassNames): MappingDef {
    MappingDef(false, n.kafkaConfig, None, [], IMap, JavaOptions(classes.javaString, classes.javaString))
  }

  function Symbols(n: Names, classes: ClassNames): MappingDef {
    MappingDef(false, n.symbols, None, [], IMap, JavaOptions(JavaString, classes.symbolInfo))
  }

  function Trades(n: Names, classes: ClassNames): MappingDef {
    MappingDef(false, n.trades, None, [], IMap, JavaOptions(JavaString, classes.trade))
  }

  function PythonSentiment(n: Names): MappingDef {
    MappingDef(false, n.pythonSentiment, None, [], IMap, JavaOptions(JavaString, JavaString))
  }

  function JobControl(n: Names): MappingDef {
    MappingDef(false, n.jobControl, None, [], IMap, JavaOptions(JavaString, JavaString))
  }

  /** The definition defineKafka renders. */
  function KafkaDefinitions(n: Names, bootstrapServers: string): seq<MappingDef> {
    [KafkaTrades(n, bootstrapServers)]
  }

  /** The definitions defineIMap renders, in call order. */
  function IMapDefinitions(n: Names, classes: ClassNames): seq<MappingDef> {
    [AggregateQueryResults(n, classes), AlertsMaxVolume(n, classes), KafkaConfig(n, classes),
     Symbols(n, classes), Trades(n, classes)]
  }

  /** The definitions defineIMap2 renders, in call order. */
  function IMapDefinitions2(n: Names): seq<MappingDef> {
    [PythonSentiment(n), JobControl(n)]
  }

  /** Every definition defineQueryableObjects renders, in call order. */
  function AllDefinitions(n: Names, classes: ClassNames, bootstrapServers: string): seq<MappingDef> {
    KafkaDefinitions(n, bootstrapServers) + IMapDefinitions(n, classes) + IMapDefinitions2(n)
  }

  /** The statement texts of a list of definitions, in the same order. */
  function Statements(defs: seq<MappingDef>): (r: seq<string>)
    ensures |r| == |defs|
    ensures forall i :: 0 <= i < |defs| ==> r[i] == Render(defs[i])
  {
    if defs == [] then [] else [Render(defs[0])] + Statements(defs[1..])
  }

  /** The statements of five definitions, written out. */
  lemma StatementsOfFive(defs: seq<MappingDef>)
    requires |defs| == 5
    ensures Statements(defs) == [Render(defs[0]), Render(defs[1]), Render(defs[2]), Render(defs[3]), Render(defs[4])]
  {
  }

  lemma StatementsAppend(a: seq<MappingDef>, b: seq<MappingDef>)
    ensures Statements(a + b) == Statements(a) + Statements(b)
  {
    var l, r := Statements(a + b), Statements(a) + Statements(b);
    forall i | 0 <= i < |l| ensures l[i] == r[i] {
      if i >= |a| {
        assert (a + b)[i] == b[i - |a|];
      }
    }
  }

  /** The names the eight statements register, in the same order. */
  function MappingNames(n: Names): seq<string> {
    [KafkaMappingName(n)] + n.MappedIMaps()
  }

  /** The prefix keeps the Kafka mapping apart from every IMap mapping, in
      particular from the IMap that shares the topic's name. */
  lemma KafkaMappingNameIsFree(n: Names)
    requires n.Valid()
    ensures Identifier(KafkaMappingName(n))
    ensures KafkaMappingName(n) != n.kafkaTopicTrades
    ensures forall i :: 0 <= i < |n.MappedIMaps()| ==> KafkaMappingName(n) != n.MappedIMaps()[i]
  {
    var k := KafkaMappingName(n);
    assert StartsWith(k, n.kafkaTopicMappingPrefix) by {
      assert k[..|n.kafkaTopicMappingPrefix|] == n.kafkaTopicMappingPrefix;
    }
    assert ' ' !in k by {
      forall i | 0 <= i < |k| ensures k[i] != ' ' {
        if i < |n.kafkaTopicMappingPrefix| {
          assert k[i] == n.kafkaTopicMappingPrefix[i];
        } else {
          assert k[i] == n.kafkaTopicTrades[i - |n.kafkaTopicMappingPrefix|];
        }
      }
    }
  }

  /** The eight mapping names are identifiers and pairwise distinct. */
  lemma MappingNamesDistinct(n: Names)
    requires n.Valid()
    ensures |MappingNames(n)| == 8
    ensures forall i :: 0 <= i < 8 ==> Identifier(MappingNames(n)[i])
    ensures forall i, j :: 0 <= i < j < 8 ==> MappingNames(n)[i] != MappingNames(n)[j]
  {
    KafkaMappingNameIsFree(n);
    var names := MappingNames(n);
    forall i, j | 0 <= i < j < 8 ensures names[i] != names[j] {
      if i > 0 {
        assert names[i] == n.MappedIMaps()[i - 1];
        assert names[j] == n.MappedIMaps()[j - 1];
      }
    }
  }

  /** Each definition carries the name listed for it. */
  lemma AllDefinitionsNames(n: Names, classes: ClassNames, bootstrapServers: string)
    ensures |AllDefinitions(n, classes, bootstrapServers)| == 8
    ensures forall i :: 0 <= i < 8 ==> AllDefinitions(n, classes, bootstrapServers)[i].name == MappingNames(n)[i]
  {
  }

  /** The engine reads from each statement the name it was built with. */
  lemma AllStatementsNames(n: Names, classes: ClassNames, bootstrapServers: string)
    requires n.Valid()
    ensures |Statements(AllDefinitions(n, classes, bootstrapServers))| == 8
    ensures forall i :: 0 <= i < 8 ==>
      ParseName(Statements(AllDefinitions(n, classes, bootstrapServers))[i]) == Some(MappingNames(n)[i])
  {
    var defs := AllDefinitions(n, classes, bootstrapServers);
    AllDefinitionsNames(n, classes, bootstrapServers);
    MappingNamesDistinct(n);
    forall i | 0 <= i < 8 ensures ParseName(Statements(defs)[i]) == Some(MappingNames(n)[i]) {
      ParseRenderedName(defs[i]);
    }
  }

  /** `timestamp` is written double-quoted in the Kafka mapping's fields. */
  lemma KafkaTimestampIsQuoted(n: Names, bootstrapServers: string)
    ensures exists a, b :: RenderFields(KafkaTrades(n, bootstrapServers).fields) == a + "\"timestamp\" BIGINT" + b
  {
    var k := KafkaTrades(n, bootstrapServers).fields;
    assert RenderField(k[4]) == "\"timestamp\" BIGINT";
    FieldIsRendered(k, 4);
  }

  /** `timestamp` is written double-quoted in the max-volume alerts mapping's
      fields. */
  lemma AlertsTimestampIsQuoted(n: Names, classes: ClassNames)
    ensures exists a, b :: RenderFields(AlertsMaxVolume(n, classes).fields) == a + "\"timestamp\" VARCHAR" + b
  {
    var v := AlertsMaxVolume(n, classes).fields;
    assert RenderField(v[1]) == "\"timestamp\" VARCHAR";
    FieldIsRendered(v, 1);
  }
}
