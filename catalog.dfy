/**
 * The SQL engine's catalog of mappings and what executing a
 * `CREATE ... MAPPING IF NOT EXISTS` statement does to it: register the
 * statement under its name unless that name is already taken.
 */
module Catalog {
  import opened Wrappers
  import opened Schema

  /** Mapping name to the statement that first registered it. */
  type Catalog = map<string, string>

  /** One execution of a statement. `reachable` is false when the engine
      fails for a reason outside the statement (cluster, connector). The
      engine rejects a statement it cannot read a name from. */
  function Execute(c: Catalog, statement: string, reachable: bool): (r: (Catalog, bool))
    ensures r.1 <==> Succeeds(statement, reachable)
    ensures c.Keys <= r.0.Keys
  {
    match ParseName(statement)
    case None => (c, false)
    case Some(name) =>
      if !reachable then (c, false)
      else if name in c then (c, true)
      else (c[name := statement], true)
  }

  /** Executing every statement in order, whatever earlier ones returned, and
      AND-ing the results. */
  function Install(c: Catalog, statements: seq<string>, reachable: seq<bool>): (r: (Catalog, bool))
    requires |reachable| == |statements|
    ensures c.Keys <= r.0.Keys
    decreases |statements|
  {
    if statements == [] then (c, true)
    else
      var first := Execute(c, statements[0], reachable[0]);
      var rest := Install(first.0, statements[1..], reachable[1..]);
      (rest.0, first.1 && rest.1)
  }

  /** A statement succeeds when the engine is reachable and can read it. */
  predicate Succeeds(statement: string, reachable: bool) {
    reachable && ParseName(statement).Some?
  }

  /** The names a list of statements registers. */
  function NameSet(statements: seq<string>): set<string> {
    set s | s in statements && ParseName(s).Some? :: ParseName(s).value
  }

  /** No two statements of the list register the same name. */
  predicate DistinctNames(statements: seq<string>) {
    forall i, j :: 0 <= i < j < |statements| && ParseName(statements[i]).Some? ==>
      ParseName(statements[i]) != ParseName(statements[j])
  }

  function AllReachable(n: nat): (r: seq<bool>)
    ensures |r| == n && forall i :: 0 <= i < n ==> r[i]
  {
    seq(n, _ => true)
  }

  /** define() reports success exactly when execution does not fail; a name
      already present keeps its statement; a new name gets this one. */
  lemma ExecuteSpec(c: Catalog, statement: string, reachable: bool)
    ensures Execute(c, statement, reachable).1 <==> Succeeds(statement, reachable)
    ensures var r := Execute(c, statement, reachable).0;
      && (forall k :: k in c ==> k in r && r[k] == c[k])
      && (Succeeds(statement, reachable) ==> r.Keys == c.Keys + {ParseName(statement).value})
      && (Succeeds(statement, reachable) && ParseName(statement).value !in c ==>
            r[ParseName(statement).value] == statement)
      && (!Succeeds(statement, reachable) ==> r == c)
  {
  }

  lemma InstallAppend(c: Catalog, s1: seq<string>, r1: seq<bool>, s2: seq<string>, r2: seq<bool>)
    requires |r1| == |s1| && |r2| == |s2|
    ensures var first := Install(c, s1, r1);
      var second := Install(first.0, s2, r2);
      Install(c, s1 + s2, r1 + r2) == (second.0, first.1 && second.1)
    decreases |s1|
  {
    if s1 == [] {
      assert s1 + s2 == s2 && r1 + r2 == r2;
    } else {
      assert (s1 + s2)[0] == s1[0] && (r1 + r2)[0] == r1[0];
      assert (s1 + s2)[1..] == s1[1..] + s2;
      assert (r1 + r2)[1..] == r1[1..] + r2;
      InstallAppend(Execute(c, s1[0], r1[0]).0, s1[1..], r1[1..], s2, r2);
    }
  }

  /** One more statement executed after a list of them. */
  lemma InstallSnoc(c: Catalog, statements: seq<string>, reachable: seq<bool>, last: string, up: bool)
    requires |reachable| == |statements|
    ensures var before := Install(c, statements, reachable);
      var step := Execute(before.0, last, up);
      Install(c, statements + [last], reachable + [up]) == (step.0, before.1 && step.1)
  {
    InstallAppend(c, statements, reachable, [last], [up]);
  }

  /** A list built one statement at a time is the display of its statements. */
  lemma Appended(d1: string, d2: string, d3: string, d4: string, d5: string)
    ensures [] + [d1] + [d2] + [d3] + [d4] + [d5] == [d1, d2, d3, d4, d5]
  {
  }

  /** One more statement executed after a list of them, stated on the
      parts of the results. */
  lemma InstallStep(c: Catalog, done: seq<string>, reachable: seq<bool>, last: string, up: bool,
                    before: Catalog, okBefore: bool, after: Catalog, ok: bool)
    requires |reachable| == |done|
    requires (before, okBefore) == Install(c, done, reachable)
    requires (after, ok) == Execute(before, last, up)
    ensures (after, okBefore && ok) == Install(c, done + [last], reachable + [up])
  {
    InstallSnoc(c, done, reachable, last, up);
  }

  /** Attempt-all aggregation: the result is true iff every statement
      succeeded, and every statement that succeeded has its name registered,
      whichever others failed before or after it. */
  lemma InstallAttemptsAll(c: Catalog, statements: seq<string>, reachable: seq<bool>)
    requires |reachable| == |statements|
    ensures var r := Install(c, statements, reachable);
      && (r.1 <==> forall i :: 0 <= i < |statements| ==> Succeeds(statements[i], reachable[i]))
      && (forall i :: 0 <= i < |statements| && Succeeds(statements[i], reachable[i]) ==>
            ParseName(statements[i]).value in r.0)
  {
    InstallOkIffAllSucceed(c, statements, reachable);
    InstallRegistersSuccesses(c, statements, reachable);
  }

  /** The AND of the results is true iff every statement succeeded. */
  lemma {:induction false} InstallOkIffAllSucceed(c: Catalog, statements: seq<string>, reachable: seq<bool>)
    requires |reachable| == |statements|
    ensures Install(c, statements, reachable).1
      <==> forall i :: 0 <= i < |statements| ==> Succeeds(statements[i], reachable[i])
    decreases |statements|
  {
    if statements != [] {
      var first := Execute(c, statements[0], reachable[0]);
      assert first.1 <==> Succeeds(statements[0], reachable[0]);
      InstallOkIffAllSucceed(first.0, statements[1..], reachable[1..]);
      if Install(c, statements, reachable).1 {
        forall i | 0 <= i < |statements| ensures Succeeds(statements[i], reachable[i]) {
          if i > 0 {
            assert statements[1..][i - 1] == statements[i];
            assert reachable[1..][i - 1] == reachable[i];
          }
        }
      } else if first.1 {
        var j :| 0 <= j < |statements[1..]| && !Succeeds(statements[1..][j], reachable[1..][j]);
        assert !Succeeds(statements[j + 1], reachable[j + 1]);
      }
    }
  }

  /** Every statement that succeeded has its name registered, whichever
      others failed before or after it. */
  lemma {:induction false} InstallRegistersSuccesses(c: Catalog, statements: seq<string>, reachable: seq<bool>)
    requires |reachable| == |statements|
    ensures forall i :: 0 <= i < |statements| && Succeeds(statements[i], reachable[i]) ==>
      ParseName(statements[i]).value in Install(c, statements, reachable).0
    decreases |statements|
  {
    if statements != [] {
      var first := Execute(c, statements[0], reachable[0]);
      var r := Install(first.0, statements[1..], reachable[1..]).0;
      assert Install(c, statements, reachable).0 == r;
      InstallRegistersSuccesses(first.0, statements[1..], reachable[1..]);
      InstallKeepsExisting(first.0, statements[1..], reachable[1..]);
      forall i | 0 <= i < |statements| && Succeeds(statements[i], reachable[i])
        ensures ParseName(statements[i]).value in r
      {
        if i > 0 {
          assert statements[1..][i - 1] == statements[i];
          assert reachable[1..][i - 1] == reachable[i];
        }
      }
    }
  }

  /** A name already in the catalog keeps its first statement, and nothing is
      registered except under the names of the statements. */
  lemma {:induction false} InstallKeepsExisting(c: Catalog, statements: seq<string>, reachable: seq<bool>)
    requires |reachable| == |statements|
    ensures var r := Install(c, statements, reachable).0;
      && (forall k :: k in c ==> k in r && r[k] == c[k])
      && r.Keys <= c.Keys + NameSet(statements)
      && (forall k :: k in r && k !in c ==> r[k] in statements && ParseName(r[k]) == Some(k))
    decreases |statements|
  {
    if statements != [] {
      var first := Execute(c, statements[0], reachable[0]);
      InstallKeepsExisting(first.0, statements[1..], reachable[1..]);
      assert NameSet(statements[1..]) <= NameSet(statements) by {
        forall k | k in NameSet(statements[1..]) ensures k in NameSet(statements) {
          var s :| s in statements[1..] && ParseName(s).Some? && ParseName(s).value == k;
          assert s in statements;
        }
      }
      if ParseName(statements[0]).Some? {
        assert ParseName(statements[0]).value in NameSet(statements);
      }
    }
  }

  /** Statements that register pairwise distinct names, each read back as
      listed, satisfy DistinctNames and are all readable. */
  lemma NamedStatementsDistinct(statements: seq<string>, names: seq<string>)
    requires |statements| == |names|
    requires forall i :: 0 <= i < |names| ==> ParseName(statements[i]) == Some(names[i])
    requires forall i, j :: 0 <= i < j < |names| ==> names[i] != names[j]
    ensures DistinctNames(statements)
    ensures forall s :: s in statements ==> ParseName(s).Some?
  {
    forall i, j | 0 <= i < j < |statements| && ParseName(statements[i]).Some?
      ensures ParseName(statements[i]) != ParseName(statements[j])
    {
      assert names[i] != names[j];
    }
  }

  /** Re-running a fully successful installation changes nothing, whatever
      fails during the re-run. */
  lemma InstallIdempotent(c: Catalog, statements: seq<string>, reachable: seq<bool>)
    requires |reachable| == |statements|
    ensures var once := Install(c, statements, AllReachable(|statements|)).0;
      Install(once, statements, reachable).0 == once
  {
    var all := AllReachable(|statements|);
    var once := Install(c, statements, all).0;
    InstallAttemptsAll(c, statements, all);
    AllNamesPresent(once, statements, reachable);
  }

  /** When every name of the statements is taken, installing changes nothing. */
  lemma {:induction false} AllNamesPresent(c: Catalog, statements: seq<string>, reachable: seq<bool>)
    requires |reachable| == |statements|
    requires forall i :: 0 <= i < |statements| && ParseName(statements[i]).Some? ==>
      ParseName(statements[i]).value in c
    ensures Install(c, statements, reachable).0 == c
    decreases |statements|
  {
    if statements != [] {
      assert Execute(c, statements[0], reachable[0]).0 == c;
      forall i | 0 <= i < |statements[1..]| && ParseName(statements[1..][i]).Some?
        ensures ParseName(statements[1..][i]).value in c
      {
        assert statements[1..][i] == statements[i + 1];
      }
      AllNamesPresent(c, statements[1..], reachable[1..]);
    }
  }

  /** With all statements succeeding and no name shared by two statements,
      the result is the old catalog plus every new name mapped to its
      statement: it depends on the set of statements, not on their order. */
  lemma AllSucceedingInstall(c: Catalog, statements: seq<string>)
    requires DistinctNames(statements)
    requires forall s :: s in statements ==> ParseName(s).Some?
    ensures var r := Install(c, statements, AllReachable(|statements|)).0;
      && r.Keys == c.Keys + NameSet(statements)
      && (forall k :: k in c ==> r[k] == c[k])
      && (forall s :: s in statements && ParseName(s).value !in c ==> r[ParseName(s).value] == s)
  {
    var all := AllReachable(|statements|);
    var r := Install(c, statements, all).0;
    InstallKeepsExisting(c, statements, all);
    InstallAttemptsAll(c, statements, all);
    forall k | k in NameSet(statements) ensures k in r {
      var s :| s in statements && ParseName(s).Some? && ParseName(s).value == k;
      var i :| 0 <= i < |statements| && statements[i] == s;
      assert Succeeds(statements[i], all[i]);
    }
    forall s | s in statements && ParseName(s).value !in c
      ensures r[ParseName(s).value] == s
    {
      var k := ParseName(s).value;
      assert k in r;
      var t := r[k];
      assert t in statements && ParseName(t) == Some(k);
      var i :| 0 <= i < |statements| && statements[i] == s;
      var j :| 0 <= j < |statements| && statements[j] == t;
      if i < j {
        assert ParseName(statements[i]) != ParseName(statements[j]);
      } else if j < i {
        assert ParseName(statements[j]) != ParseName(statements[i]);
      }
    }
  }

  /** A registered name comes from some statement of the list. */
  lemma NameWitness(statements: seq<string>, k: string) returns (s: string)
    requires k in NameSet(statements)
    ensures s in statements && ParseName(s) == Some(k)
  {
    s :| s in statements && ParseName(s).Some? && ParseName(s).value == k;
  }

  /** Two lists holding the same statements, in any order, register the same
      names. */
  lemma SameMembers(s1: seq<string>, s2: seq<string>)
    requires multiset(s1) == multiset(s2)
    ensures forall s :: s in s1 <==> s in s2
    ensures NameSet(s1) == NameSet(s2)
  {
    forall s ensures s in s1 <==> s in s2 {
      assert s in s1 <==> s in multiset(s1);
      assert s in s2 <==> s in multiset(s2);
    }
  }

  /** Registration is order-independent: any reordering of statements with
      distinct names reaches the same catalog. */
  lemma InstallOrderIndependent(c: Catalog, s1: seq<string>, s2: seq<string>)
    requires DistinctNames(s1) && DistinctNames(s2)
    requires forall s :: s in s1 ==> ParseName(s).Some?
    requires multiset(s1) == multiset(s2)
    ensures Install(c, s1, AllReachable(|s1|)).0 == Install(c, s2, AllReachable(|s2|)).0
  {
    SameMembers(s1, s2);
    var a := Install(c, s1, AllReachable(|s1|)).0;
    var b := Install(c, s2, AllReachable(|s2|)).0;
    AllSucceedingInstall(c, s1);
    AllSucceedingInstall(c, s2);
    assert a.Keys == b.Keys;
    forall k | k in a ensures a[k] == b[k] {
      if k !in c {
        var s := NameWitness(s1, k);
        assert a[k] == s && b[k] == s;
      }
    }
    SameEntries(a, b);
  }

  lemma SameEntries(a: Catalog, b: Catalog)
    requires a.Keys == b.Keys
    requires forall k :: k in a ==> a[k] == b[k]
    ensures a == b
  {
  }

  /** Convergence after partial failure: a full re-run after any partly
      failed run reaches the catalog of one fully successful run. */
  lemma InstallConverges(c: Catalog, statements: seq<string>, reachable: seq<bool>)
    requires |reachable| == |statements|
    requires DistinctNames(statements)
    requires forall s :: s in statements ==> ParseName(s).Some?
    ensures var partial := Install(c, statements, reachable).0;
      Install(partial, statements, AllReachable(|statements|)).0
        == Install(c, statements, AllReachable(|statements|)).0
  {
    var all := AllReachable(|statements|);
    var partial := Install(c, statements, reachable).0;
    var fromPartial := Install(partial, statements, all).0;
    var direct := Install(c, statements, all).0;
    InstallKeepsExisting(c, statements, reachable);
    AllSucceedingInstall(partial, statements);
    AllSucceedingInstall(c, statements);
    assert c.Keys + NameSet(statements) == partial.Keys + NameSet(statements);
    forall k | k in direct ensures fromPartial[k] == direct[k] {
      if k !in c {
        var s :| s in statements && ParseName(s).Some? && ParseName(s).value == k;
        if k in partial {
          var t := partial[k];
          assert t in statements && ParseName(t) == Some(k);
          var i :| 0 <= i < |statements| && statements[i] == s;
          var j :| 0 <= j < |statements| && statements[j] == t;
          if i < j {
            assert ParseName(statements[i]) != ParseName(statements[j]);
          } else if j < i {
            assert ParseName(statements[j]) != ParseName(statements[i]);
          }
        }
      }
    }
  }

  /** Why names must be distinct: of two statements that register one name,
      only the first to succeed is kept and the other is silently skipped,
      so the outcome depends on order and on which one failed. */
  lemma SharedNameSkipsSecond(c: Catalog, first: string, second: string)
    requires ParseName(first).Some? && ParseName(first) == ParseName(second)
    requires ParseName(first).value !in c
    ensures var r := Install(c, [first, second], [true, true]);
      r.1 && ParseName(first).value in r.0 && r.0[ParseName(first).value] == first
    ensures var r := Install(c, [first, second], [false, true]);
      !r.1 && ParseName(first).value in r.0 && r.0[ParseName(first).value] == second
  {
    var k := ParseName(first).value;
    var one := Execute(c, first, true).0;
    assert one == c[k := first];
    assert Install(c, [first, second], [true, true]) == (one, true) by {
      assert Execute(one, second, true) == (one, true);
      assert Install(one, [second], [true]) == (one, true);
    }
    var two := Execute(c, second, true).0;
    assert two == c[k := second];
    assert Install(c, [first, second], [false, true]) == (two, false) by {
      assert Execute(c, first, false) == (c, false);
      assert Install(c, [second], [true]) == (two, true);
    }
  }
}
