/**
 * Mapping definitions and the text of the
 * `CREATE [EXTERNAL] MAPPING IF NOT EXISTS` statements that register them
 * with the SQL engine. The field and option layout follows the statements
 * built in CommonIdempotentInitialization.java; spacing is normalised.
 */
module Schema {
  import opened Wrappers

  /** Field names that collide with a reserved word of the SQL grammar. */
  const Reserved: set<string> := {"timestamp"}

  const ExternalHeader: string := "CREATE EXTERNAL MAPPING IF NOT EXISTS "
  const Header: string := "CREATE MAPPING IF NOT EXISTS "

  /** The connector that backs a mapping: a Kafka topic or an IMap. */
  datatype Kind = Kafka | IMap

  /** One mapping definition: target name, optional remote name, ordered
      (field, SQL type) list, backing kind and ordered option pairs. */
  datatype MappingDef = MappingDef(
    external: bool,
    name: string,
    externalName: Option<string>,
    fields: seq<(string, string)>,
    kind: Kind,
    options: seq<(string, string)>)

  /** A name the engine can read back from a statement: non-empty, no blank. */
  predicate Identifier(s: string) {
    |s| > 0 && ' ' !in s
  }

  predicate StartsWith(s: string, prefix: string) {
    |prefix| <= |s| && s[..|prefix|] == prefix
  }

  function KindName(k: Kind): string {
    match k
    case Kafka => "Kafka"
    case IMap => "IMap"
  }

  /** Double-quotes a field name that is a reserved word, leaves others alone. */
  function Quote(field: string): (r: string)
    ensures field in Reserved ==> |r| == |field| + 2 && r[0] == '"' && r[|r| - 1] == '"'
    ensures field !in Reserved ==> r == field
  {
    if field in Reserved then "\"" + field + "\"" else field
  }

  /** Strips one pair of surrounding double quotes, as the SQL lexer does. */
  function Unquote(s: string): string {
    if |s| >= 2 && s[0] == '"' && s[|s| - 1] == '"' then s[1..|s| - 1] else s
  }

  function RenderField(f: (string, string)): string {
    Quote(f.0) + " " + f.1
  }

  function RenderFields(fs: seq<(string, string)>): string {
    if |fs| == 0 then ""
    else if |fs| == 1 then RenderField(fs[0])
    else RenderField(fs[0]) + ", " + RenderFields(fs[1..])
  }

  function RenderOption(o: (string, string)): string {
    "'" + o.0 + "' = '" + o.1 + "'"
  }

  function RenderOptions(os: seq<(string, string)>): string {
    if |os| == 0 then ""
    else if |os| == 1 then RenderOption(os[0])
    else RenderOption(os[0]) + ", " + RenderOptions(os[1..])
  }

  /** Everything after the mapping name; it always begins with a blank. */
  function Tail(d: MappingDef): (t: string)
    ensures |t| > 0 && t[0] == ' '
  {
    var remote := match d.externalName
      case Some(x) => " EXTERNAL NAME " + x
      case None => "";
    var columns := if d.fields == [] then "" else " ( " + RenderFields(d.fields) + " )";
    var rest := " TYPE " + KindName(d.kind) + " OPTIONS ( " + RenderOptions(d.options) + " )";
    assert rest[0] == ' ';
    assert columns != "" ==> columns[0] == ' ';
    assert remote != "" ==> remote[0] == ' ';
    assert (remote + columns + rest)[0] == ' ';
    remote + columns + rest
  }

  /** The statement text handed to the SQL engine. */
  function Render(d: MappingDef): string {
    (if d.external then ExternalHeader else Header) + d.name + Tail(d)
  }

  /** The leading run of non-blank characters of s. */
  function Word(s: string): (w: string)
    ensures |w| <= |s| && w == s[..|w|]
    ensures ' ' !in w
  {
    if |s| == 0 || s[0] == ' ' then "" else [s[0]] + Word(s[1..])
  }

  /** The name a statement registers, as the engine reads it; None when the
      statement is not a CREATE MAPPING IF NOT EXISTS statement. */
  function ParseName(statement: string): (r: Option<string>)
    ensures r.Some? ==> Identifier(r.value)
  {
    var rest :=
      if StartsWith(statement, ExternalHeader) then Some(statement[|ExternalHeader|..])
      else if StartsWith(statement, Header) then Some(statement[|Header|..])
      else None;
    if rest.None? then None
    else
      var w := Word(rest.value);
      if w == "" then None else Some(w)
  }

  lemma {:induction false} WordStopsAtBlank(name: string, t: string)
    requires ' ' !in name
    requires |t| > 0 && t[0] == ' '
    ensures Word(name + t) == name
  {
    if name == [] {
      assert name + t == t;
    } else {
      assert (name + t)[1..] == name[1..] + t;
      WordStopsAtBlank(name[1..], t);
    }
  }

  /** A header, then a name, then text that begins with a blank: the engine
      reads the name. */
  lemma ParseHeadedName(h: string, name: string, t: string)
    requires h == ExternalHeader || h == Header
    requires Identifier(name)
    requires |t| > 0 && t[0] == ' '
    ensures ParseName(h + name + t) == Some(name)
  {
    var s := h + name + t;
    assert s == h + (name + t);
    if h == ExternalHeader {
      assert StartsWith(s, ExternalHeader);
    } else {
      assert !StartsWith(s, ExternalHeader) by {
        assert s[7] != ExternalHeader[7];
      }
      assert StartsWith(s, Header);
    }
    assert s[|h|..] == name + t;
    WordStopsAtBlank(name, t);
  }

  /** The engine reads back exactly the name a definition was rendered with. */
  lemma ParseRenderedName(d: MappingDef)
    requires Identifier(d.name)
    ensures ParseName(Render(d)) == Some(d.name)
  {
    ParseHeadedName(if d.external then ExternalHeader else Header, d.name, Tail(d));
  }

  /** Quoting a field name is undone by the lexer, so the field keeps its name. */
  lemma UnquoteQuote(field: string)
    requires '"' !in field
    ensures Unquote(Quote(field)) == field
  {
    if field !in Reserved && |field| >= 2 {
      assert field[0] != '"';
    }
  }

  lemma RenderFieldsCons(fs: seq<(string, string)>)
    requires |fs| > 1
    ensures RenderFields(fs) == RenderField(fs[0]) + ", " + RenderFields(fs[1..])
  {
  }

  lemma ConcatAssoc(p: string, a: string, x: string, b: string)
    ensures p + (a + x + b) == (p + a) + x + b
  {
  }

  /** Every field of a list appears, rendered, in the rendered list; so a
      reserved field name appears there double-quoted. */
  lemma FieldIsRendered(fs: seq<(string, string)>, i: nat)
    requires i < |fs|
    ensures exists a, b :: RenderFields(fs) == a + RenderField(fs[i]) + b
  {
    var a, b := FieldPosition(fs, i);
  }

  /** The text before and after the i-th rendered field. */
  lemma {:induction false} FieldPosition(fs: seq<(string, string)>, i: nat) returns (a: string, b: string)
    requires i < |fs|
    ensures RenderFields(fs) == a + RenderField(fs[i]) + b
  {
    var x := RenderField(fs[i]);
    if |fs| == 1 {
      assert RenderFields(fs) == x;
      a, b := [], [];
      assert a + x + b == x;
    } else if i == 0 {
      RenderFieldsCons(fs);
      a, b := [], ", " + RenderFields(fs[1..]);
      assert a + x + b == x + b;
    } else {
      assert fs[1..][i - 1] == fs[i];
      var a', b' := FieldPosition(fs[1..], i - 1);
      var p := RenderField(fs[0]) + ", ";
      RenderFieldsCons(fs);
      assert RenderFields(fs) == p + RenderFields(fs[1..]);
      ConcatAssoc(p, a', x, b');
      a, b := p + a', b';
    }
  }
}
