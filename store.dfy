/**
 * The cluster's named key/value containers (IMaps) as values, and the
 * materialising access `getMap`, which creates a container on first use.
 */
module Store {

  /** Nasdaq listing codes; the enum types are not part of this model. */
  datatype MarketCategory = MarketCategory(code: string)
  datatype FinancialStatus = FinancialStatus(code: string)

  /** The reference record stored per stock symbol. */
  datatype SymbolInfo = SymbolInfo(
    securityName: string,
    marketCategory: MarketCategory,
    financialStatus: FinancialStatus)

  /** A container value: a string (Kafka properties) or a symbol record. */
  datatype Value = Text(text: string) | Symbol(info: SymbolInfo)

  type Container = map<string, Value>

  /** Container name to contents. */
  type Store = map<string, Container>

  /** getMap: an existing container is returned as it is, a missing one is
      created empty. */
  function Touch(s: Store, name: string): (r: Store)
    ensures r.Keys == s.Keys + {name}
    ensures forall k :: k in s ==> r[k] == s[k]
    ensures name !in s ==> r[name] == map[]
  {
    if name in s then s else s[name := map[]]
  }

  /** The entries of c whose keys are in keys: what a put of c that stopped
      part-way may have stored. */
  function Restrict(c: Container, keys: set<string>): (r: Container)
    ensures r.Keys == c.Keys * keys
    ensures forall k :: k in r ==> r[k] == c[k]
  {
    map k | k in c && k in keys :: c[k]
  }

  /** getMap on each name of a list, in order. */
  function TouchAll(s: Store, names: seq<string>): (r: Store)
    ensures s.Keys <= r.Keys
    decreases |names|
  {
    if names == [] then s else Touch(TouchAll(s, names[..|names| - 1]), names[|names| - 1])
  }

  /** After touching a list: every listed name exists, existing containers
      keep their contents, and the only new containers are listed ones, empty. */
  lemma {:induction false} TouchAllContents(s: Store, names: seq<string>)
    ensures var r := TouchAll(s, names);
      && (forall k :: k in r <==> k in s || k in names)
      && (forall k :: k in s ==> r[k] == s[k])
      && (forall k :: k in r && k !in s ==> r[k] == map[])
    decreases |names|
  {
    if names != [] {
      var init := names[..|names| - 1];
      var last := names[|names| - 1];
      TouchAllContents(s, init);
      assert names == init + [last];
      forall k ensures k in names <==> k in init || k == last {
        if k in names {
          var i :| 0 <= i < |names| && names[i] == k;
          if i < |init| { assert init[i] == k; }
        }
      }
    }
  }

  /** Touching names that all exist changes nothing. */
  lemma {:induction false} TouchAllPresent(s: Store, names: seq<string>)
    requires forall i :: 0 <= i < |names| ==> names[i] in s
    ensures TouchAll(s, names) == s
    decreases |names|
  {
    if names != [] {
      TouchAllPresent(s, names[..|names| - 1]);
    }
  }

  /** createNeededObjects twice is createNeededObjects once. */
  lemma TouchAllIdempotent(s: Store, names: seq<string>)
    ensures TouchAll(TouchAll(s, names), names) == TouchAll(s, names)
  {
    TouchAllContents(s, names);
    var r := TouchAll(s, names);
    TouchAllPresent(r, names);
  }
}
