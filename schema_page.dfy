/** The Prisma schema viewer (app/schema/page.tsx): a parser that turns the `model`
    blocks of a schema into nodes with fields, a heuristic that turns every field of a
    non-scalar type into a relationship, and the filter that hides isolated nodes. */
module SchemaPage {
  import opened Strings

  /** The scalar types of Prisma that never start a relationship. */
  const ScalarTypes: seq<string> := ["String", "Int", "Float", "Boolean", "DateTime", "Json"]

  predicate IsScalar(t: string)
  {
    t in ScalarTypes
  }

  datatype Field = Field(name: string, fieldType: string, isOptional: bool, isArray: bool, attributes: string)

  datatype Node = Node(name: string, fields: seq<Field>)

  datatype RelationKind = OneToOne | OneToMany

  /** `{from, via, to, type}`. */
  datatype Relationship = Relationship(fromModel: string, via: string, toModel: string, kind: RelationKind)

  datatype Schema = Schema(nodes: seq<Node>, relationships: seq<Relationship>)

  // ---------------------------------------------------------------------------
  // The regular expressions

  /** Characters of the field-type class `[\w\[\]?]`. */
  predicate IsTypeChar(c: char)
  {
    IsWordChar(c) || c == '[' || c == ']' || c == '?'
  }

  /** Characters `.` does not match. */
  predicate IsLineTerminator(c: char)
  {
    c == '\n' || c == '\r' || c == '\U{2028}' || c == '\U{2029}'
  }

  /** Length of the longest prefix of word characters (`\w+` is greedy, and what follows
      it in both expressions can never be a word character, so the longest run is the one
      the engine keeps). */
  function WordRun(s: string): (k: nat)
    ensures k <= |s| && (forall j :: 0 <= j < k ==> IsWordChar(s[j])) && (k < |s| ==> !IsWordChar(s[k]))
  {
    if s != [] && IsWordChar(s[0]) then 1 + WordRun(s[1..]) else 0
  }

  /** Length of the longest prefix of type characters. */
  function TypeRun(s: string): (k: nat)
    ensures k <= |s| && (forall j :: 0 <= j < k ==> IsTypeChar(s[j])) && (k < |s| ==> !IsTypeChar(s[k]))
  {
    if s != [] && IsTypeChar(s[0]) then 1 + TypeRun(s[1..]) else 0
  }

  /** A match of `model\s+(\w+)\s*\{([\s\S]*?)\}` starting at `start` and ending before `end`. */
  datatype ModelMatch = ModelMatch(start: nat, name: string, body: string, end: nat)

  /** The block after `model`, the spaces and the name: `\s*\{`, then the body up to the
      first `}`. Yields the body and the length consumed. */
  function BlockAt(w: string): (r: Option<(string, nat)>)
    ensures r.Some? ==> 0 < r.value.1 <= |w|
  {
    var k := SpaceRun(w);
    if k == |w| || w[k] != '{' then None
    else
      match IndexOfFrom(w, '}', k + 1)
      case None => None
      case Some(j) => Some((w[k + 1..j], j + 1))
  }

  /** `(\w+)\s*\{([\s\S]*?)\}`: the name, then the block. */
  function NameBlock(v: string): (r: Option<(string, string, nat)>)
    ensures r.Some? ==> 0 < r.value.2 <= |v|
  {
    var k := WordRun(v);
    if k == 0 then None
    else
      match BlockAt(v[k..])
      case None => None
      case Some((body, n)) => Some((v[..k], body, k + n))
  }

  /** `\s+(\w+)\s*\{([\s\S]*?)\}`. */
  function SpacedBlock(u: string): (r: Option<(string, string, nat)>)
    ensures r.Some? ==> 0 < r.value.2 <= |u|
  {
    var k := SpaceRun(u);
    if k == 0 then None
    else
      match NameBlock(u[k..])
      case None => None
      case Some((name, body, n)) => Some((name, body, k + n))
  }

  /** The match of the model expression anchored at the start of `t`, as
      (name, body, length consumed). */
  function MatchModel(t: string): (r: Option<(string, string, nat)>)
    ensures r.Some? ==> 0 < r.value.2 <= |t|
  {
    if !StartsWith(t, "model") then None
    else
      match SpacedBlock(t[5..])
      case None => None
      case Some((name, body, n)) => Some((name, body, 5 + n))
  }

  /** What the engine finds when it tries the model expression at each position of `s`. */
  type Outcome = Option<(string, string, nat)>

  /** Every match fits in what remains of the string. */
  predicate Consistent(at: seq<Outcome>)
  {
    forall j :: 0 <= j < |at| && at[j].Some? ==> 0 < at[j].value.2 <= |at| - j
  }

  function MatchTable(s: string): (at: seq<Outcome>)
    ensures |at| == |s| && Consistent(at)
  {
    seq(|s|, j requires 0 <= j < |s| => MatchModel(s[j..]))
  }

  lemma MatchTableAt(s: string, j: nat)
    requires j < |s|
    ensures MatchTable(s)[j] == MatchModel(s[j..])
  {
  }

  /** `modelRegex.exec(s)` with `lastIndex` at `p`: the first position at or after `p`
      where the expression matches. */
  function Exec(at: seq<Outcome>, p: nat): (r: Option<ModelMatch>)
    requires Consistent(at) && p <= |at|
    ensures r.Some? ==> p <= r.value.start < r.value.end <= |at| &&
                        at[r.value.start] == Some((r.value.name, r.value.body, r.value.end - r.value.start))
    ensures forall j :: p <= j < (if r.Some? then r.value.start else |at|) ==> at[j].None?
    decreases |at| - p
  {
    if p == |at| then None
    else
      match at[p]
      case Some((name, body, n)) => Some(ModelMatch(p, name, body, p + n))
      case None => Exec(at, p + 1)
  }

  /** The successive matches of the global expression from `lastIndex` `p` on. */
  function Matches(at: seq<Outcome>, p: nat): seq<ModelMatch>
    requires Consistent(at) && p <= |at|
    decreases |at| - p
  {
    match Exec(at, p)
    case None => []
    case Some(m) => [m] + Matches(at, m.end)
  }

  /** `fieldRegex = /^(\w+)\s+([\w\[\]?]+)(.*)$/`: name, type token and the raw rest.
      The three runs are maximal, and `(.*)$` fails exactly when the rest holds a line
      terminator. */
  function FieldMatch(line: string): (r: Option<(string, string, string)>)
  {
    var k1 := WordRun(line);
    if k1 == 0 then None
    else
      var a := line[k1..];
      var k2 := SpaceRun(a);
      if k2 == 0 then None
      else
        var b := a[k2..];
        var k3 := TypeRun(b);
        if k3 == 0 then None
        else
          var rest := b[k3..];
          if (exists j :: 0 <= j < |rest| && IsLineTerminator(rest[j])) then None
          else Some((line[..k1], b[..k3], rest))
  }

  // ---------------------------------------------------------------------------
  // Lines and fields

  /** The filter on trimmed body lines. */
  predicate Kept(line: string)
  {
    line != "" && !StartsWith(line, "//") && !StartsWith(line, "@@") &&
    !StartsWith(line, "generator") && !StartsWith(line, "datasource")
  }

  function TrimAll(pieces: seq<string>): (r: seq<string>)
    ensures |r| == |pieces| && forall i :: 0 <= i < |pieces| ==> r[i] == Trim(pieces[i])
  {
    seq(|pieces|, i requires 0 <= i < |pieces| => Trim(pieces[i]))
  }

  function KeepLines(lines: seq<string>): (r: seq<string>)
    ensures |r| <= |lines|
  {
    if lines == [] then []
    else (if Kept(lines[0]) then [lines[0]] else []) + KeepLines(lines[1..])
  }

  /** `body.split('\n').map(trim).filter(...)`. */
  function BodyLines(body: string): seq<string>
  {
    KeepLines(TrimAll(Split(body, '\n')))
  }

  /** The field a matched line describes, given its trimmed attributes: a trailing `?`
      is stripped first, then a trailing `[]`. */
  function FieldOf(name: string, token: string, attributes: string): Field
  {
    var isOptional := EndsWith(token, "?");
    var t1 := if isOptional then token[..|token| - 1] else token;
    var isArray := EndsWith(t1, "[]");
    var t2 := if isArray then t1[..|t1| - 2] else t1;
    Field(name, t2, isOptional, isArray, attributes)
  }

  /** The fields of one line: none when the line does not match. */
  function LineFields(line: string): seq<Field>
  {
    match FieldMatch(line)
    case None => []
    case Some((name, token, rest)) => [FieldOf(name, token, Trim(rest))]
  }

  function FieldsOf(lines: seq<string>): seq<Field>
  {
    if lines == [] then [] else FieldsOf(lines[..|lines| - 1]) + LineFields(lines[|lines| - 1])
  }

  /** The relationship a field of `model` starts. */
  function RelationOf(model: string, f: Field): Relationship
  {
    Relationship(model, f.name, f.fieldType, if f.isArray then OneToMany else OneToOne)
  }

  function FieldRelations(model: string, f: Field): seq<Relationship>
  {
    if IsScalar(f.fieldType) then [] else [RelationOf(model, f)]
  }

  function RelationsOf(model: string, fields: seq<Field>): seq<Relationship>
  {
    if fields == [] then []
    else RelationsOf(model, fields[..|fields| - 1]) + FieldRelations(model, fields[|fields| - 1])
  }

  function NodeOf(m: ModelMatch): Node
  {
    Node(m.name, FieldsOf(BodyLines(m.body)))
  }

  function NodesOf(ms: seq<ModelMatch>): (r: seq<Node>)
    ensures |r| == |ms|
  {
    if ms == [] then [] else NodesOf(ms[..|ms| - 1]) + [NodeOf(ms[|ms| - 1])]
  }

  function AllRelations(nodes: seq<Node>): seq<Relationship>
  {
    if nodes == [] then []
    else AllRelations(nodes[..|nodes| - 1]) + RelationsOf(nodes[|nodes| - 1].name, nodes[|nodes| - 1].fields)
  }

  /** The nodes and relationships of the successive matches in a table of outcomes. */
  function ParseTable(at: seq<Outcome>): Schema
    requires Consistent(at)
  {
    var nodes := Nodes(at);
    Schema(nodes, AllRelations(nodes))
  }

  /** One node per match. */
  function Nodes(at: seq<Outcome>): seq<Node>
    requires Consistent(at)
  {
    NodesOf(Matches(at, 0))
  }

  /** What `parsePrismaSchema` returns. */
  function Parse(s: string): Schema
  {
    ParseTable(MatchTable(s))
  }

  // ---------------------------------------------------------------------------
  // The parser

  /** `parsePrismaSchema`. */
  method ParsePrismaSchema(schemaString: string) returns (nodes: seq<Node>, relationships: seq<Relationship>)
    ensures Schema(nodes, relationships) == Parse(schemaString)
  {
    nodes, relationships := ParseBlocks(MatchTable(schemaString));
  }

  /** The `while (modelRegex.exec(...))` loop, over the engine's outcomes at each
      position of the schema text. */
  method ParseBlocks(table: seq<Outcome>) returns (nodes: seq<Node>, relationships: seq<Relationship>)
    requires Consistent(table)
    ensures Schema(nodes, relationships) == ParseTable(table)
  {
    nodes := [];
    relationships := [];
    var lastIndex := 0;
    ghost var done: seq<ModelMatch> := [];
    while true
      invariant lastIndex <= |table|
      invariant Matches(table, 0) == done + Matches(table, lastIndex)
      invariant nodes == NodesOf(done) && relationships == AllRelations(nodes)
      decreases |table| - lastIndex
    {
      var found := Exec(table, lastIndex);
      if found.None? {
        assert done == Matches(table, 0);
        assert Schema(nodes, relationships) == ParseTable(table);
        break;
      }
      var node, modelRelationships := ModelNode(found.value);
      relationships := relationships + modelRelationships;
      assert Matches(table, lastIndex) == [found.value] + Matches(table, found.value.end);
      AppendAssoc(done, [found.value], Matches(table, found.value.end));
      NodesStep(done, found.value);
      AllRelationsStep(nodes, node);
      nodes := nodes + [node];
      done := done + [found.value];
      lastIndex := found.value.end;
    }
  }

  /** One loop iteration: the node of a match and the relationships its fields start. */
  method ModelNode(found: ModelMatch) returns (node: Node, relationships: seq<Relationship>)
    ensures node == NodeOf(found) && relationships == RelationsOf(node.name, node.fields)
  {
    var modelName := found.name;
    var body := found.body;
    var lines := BodyLines(body);
    var fields;
    fields, relationships := BodyFields(modelName, lines);
    node := Node(modelName, fields);
  }

  lemma LineFieldsOfMatch(line: string)
    ensures FieldMatch(line).None? ==> LineFields(line) == []
    ensures FieldMatch(line).Some? ==>
              var m := FieldMatch(line).value;
              LineFields(line) == [FieldOf(m.0, m.1, Trim(m.2))]
  {
  }

  /** `lines.forEach(...)`: the fields of a model's body lines, in order, and the
      relationships they start. */
  method BodyFields(modelName: string, lines: seq<string>) returns (fields: seq<Field>, relationships: seq<Relationship>)
    ensures fields == FieldsOf(lines) && relationships == RelationsOf(modelName, fields)
  {
    fields, relationships := [], [];
    for i := 0 to |lines|
      invariant fields == FieldsOf(lines[..i])
      invariant relationships == RelationsOf(modelName, fields)
    {
      FieldsStep(lines, i);
      var lineFields, lineRelationships := FieldLine(modelName, lines[i]);
      RelationsStep(modelName, fields, lineFields);
      fields := fields + lineFields;
      relationships := relationships + lineRelationships;
    }
    assert lines[..|lines|] == lines;
  }

  /** The `forEach` callback for one body line: the field it pushes, if the line
      matches, and the relationship it pushes, if that field's type is not scalar. */
  method FieldLine(modelName: string, line: string) returns (fields: seq<Field>, relationships: seq<Relationship>)
    ensures fields == LineFields(line) && |fields| <= 1
    ensures relationships == if fields == [] then [] else FieldRelations(modelName, fields[0])
  {
    fields, relationships := [], [];
    var fieldMatch := FieldMatch(line);
    LineFieldsOfMatch(line);
    if fieldMatch.Some? {
      var field;
      field, relationships := MatchedField(modelName, fieldMatch.value.0, fieldMatch.value.1, Trim(fieldMatch.value.2));
      fields := [field];
    }
  }

  /** The callback's body once the line matched: the type token loses a trailing `?`
      (optional) and then a trailing `[]` (list), and a type that is not scalar starts
      a relationship, one-to-many for a list. */
  method MatchedField(modelName: string, fieldName: string, token: string, rest: string)
    returns (field: Field, relationships: seq<Relationship>)
    ensures field == FieldOf(fieldName, token, rest)
    ensures relationships == FieldRelations(modelName, field)
  {
    relationships := [];
    var fieldType := token;
    var isOptional := false;
    if EndsWith(fieldType, "?") {
      isOptional := true;
      fieldType := fieldType[..|fieldType| - 1];
    }
    var isArray := false;
    if EndsWith(fieldType, "[]") {
      isArray := true;
      fieldType := fieldType[..|fieldType| - 2];
    }
    field := Field(fieldName, fieldType, isOptional, isArray, rest);
    if !IsScalar(fieldType) {
      relationships := relationships + [Relationship(modelName, fieldName, fieldType, if isArray then OneToMany else OneToOne)];
    }
  }

  lemma FieldsStep(lines: seq<string>, i: nat)
    requires i < |lines|
    ensures FieldsOf(lines[..i + 1]) == FieldsOf(lines[..i]) + LineFields(lines[i])
  {
    assert lines[..i + 1][..i] == lines[..i];
  }

  lemma RelationsStep(model: string, fields: seq<Field>, more: seq<Field>)
    requires |more| <= 1
    ensures RelationsOf(model, fields + more) ==
              RelationsOf(model, fields) + (if more == [] then [] else FieldRelations(model, more[0]))
  {
    if more != [] {
      assert (fields + more)[..|fields|] == fields;
    } else {
      assert fields + more == fields;
    }
  }

  lemma NodesStep(ms: seq<ModelMatch>, m: ModelMatch)
    ensures NodesOf(ms + [m]) == NodesOf(ms) + [NodeOf(m)]
  {
    assert (ms + [m])[..|ms|] == ms;
  }

  lemma AllRelationsStep(nodes: seq<Node>, node: Node)
    ensures AllRelations(nodes + [node]) == AllRelations(nodes) + RelationsOf(node.name, node.fields)
  {
    assert (nodes + [node])[..|nodes|] == nodes;
  }

  // ---------------------------------------------------------------------------
  // Properties of the parser

  lemma TakeSplit(x: string, a: nat, b: nat)
    requires a + b <= |x|
    ensures x[..a + b] == x[..a] + x[a..][..b]
  {
  }

  /** The text of a block: blanks, `{`, the body and `}`. */
  function BlockText(sp: string, body: string): string
  {
    sp + ("{" + (body + "}"))
  }

  /** The block after a model name: blanks, `{`, a body free of `}`, and `}`. */
  lemma BlockAtSound(w: string)
    requires BlockAt(w).Some?
    ensures var body, n := BlockAt(w).value.0, BlockAt(w).value.1;
            (exists sp :: IsBlank(sp) && w[..n] == BlockText(sp, body)) &&
            forall j :: 0 <= j < |body| ==> body[j] != '}'
  {
    var k := SpaceRun(w);
    var j := IndexOfFrom(w, '}', k + 1).value;
    assert w[..j + 1] == BlockText(w[..k], w[k + 1..j]);
  }

  lemma NameBlockSound(v: string)
    requires NameBlock(v).Some?
    ensures var name, body, n := NameBlock(v).value.0, NameBlock(v).value.1, NameBlock(v).value.2;
            name != "" && (forall j :: 0 <= j < |name| ==> IsWordChar(name[j])) &&
            (forall j :: 0 <= j < |body| ==> body[j] != '}') &&
            exists sp :: IsBlank(sp) && v[..n] == name + BlockText(sp, body)
  {
    var k := WordRun(v);
    var w := v[k..];
    BlockAtSound(w);
    var body, nb := BlockAt(w).value.0, BlockAt(w).value.1;
    var sp :| IsBlank(sp) && w[..nb] == BlockText(sp, body);
    TakeSplit(v, k, nb);
    assert v[..k + nb] == v[..k] + BlockText(sp, body);
  }

  lemma SpacedBlockSound(u: string)
    requires SpacedBlock(u).Some?
    ensures var name, body, n := SpacedBlock(u).value.0, SpacedBlock(u).value.1, SpacedBlock(u).value.2;
            name != "" && (forall j :: 0 <= j < |name| ==> IsWordChar(name[j])) &&
            (forall j :: 0 <= j < |body| ==> body[j] != '}') &&
            exists sp1, sp2 :: sp1 != "" && IsBlank(sp1) && IsBlank(sp2) &&
                               u[..n] == sp1 + (name + BlockText(sp2, body))
  {
    var k := SpaceRun(u);
    var v := u[k..];
    NameBlockSound(v);
    var name, body, nb := NameBlock(v).value.0, NameBlock(v).value.1, NameBlock(v).value.2;
    var sp2 :| IsBlank(sp2) && v[..nb] == name + BlockText(sp2, body);
    TakeSplit(u, k, nb);
    assert u[..k + nb] == u[..k] + (name + BlockText(sp2, body));
  }

  /** The model expression, read back: `model`, blanks, a name of word characters,
      optional blanks, `{`, a body free of `}`, and `}`. */
  lemma MatchModelSound(t: string)
    requires MatchModel(t).Some?
    ensures var name, body, n := MatchModel(t).value.0, MatchModel(t).value.1, MatchModel(t).value.2;
            name != "" && (forall j :: 0 <= j < |name| ==> IsWordChar(name[j])) &&
            (forall j :: 0 <= j < |body| ==> body[j] != '}') &&
            exists sp1, sp2 :: sp1 != "" && IsBlank(sp1) && IsBlank(sp2) &&
                               t[..n] == "model" + (sp1 + (name + BlockText(sp2, body)))
  {
    var u := t[5..];
    SpacedBlockSound(u);
    var name, body, nu := SpacedBlock(u).value.0, SpacedBlock(u).value.1, SpacedBlock(u).value.2;
    var sp1, sp2 :| sp1 != "" && IsBlank(sp1) && IsBlank(sp2) && u[..nu] == sp1 + (name + BlockText(sp2, body));
    TakeSplit(t, 5, nu);
    assert t[..5] == "model";
    assert t[..5 + nu] == "model" + (sp1 + (name + BlockText(sp2, body)));
  }

  /** Each match of the global expression is the first one at or after the previous
      match's end, and the matches follow one another without overlapping. */
  lemma {:induction false} MatchesInOrder(at: seq<Outcome>, p: nat, i: nat)
    requires Consistent(at) && p <= |at| && i + 1 < |Matches(at, p)|
    ensures Matches(at, p)[i].end <= Matches(at, p)[i + 1].start < |at|
    ensures forall j :: Matches(at, p)[i].end <= j < Matches(at, p)[i + 1].start ==> at[j].None?
    decreases |at| - p
  {
    var m := Exec(at, p).value;
    if i > 0 {
      MatchesInOrder(at, m.end, i - 1);
    } else {
      var m2 := Exec(at, m.end).value;
      assert Matches(at, p)[1] == m2;
    }
  }

  /** Every match is one of the expression's matches, at or after `p`. */
  lemma {:induction false} MatchesAreMatches(at: seq<Outcome>, p: nat, i: nat)
    requires Consistent(at) && p <= |at| && i < |Matches(at, p)|
    ensures var m := Matches(at, p)[i];
            p <= m.start < m.end <= |at| && at[m.start] == Some((m.name, m.body, m.end - m.start))
    decreases |at| - p
  {
    var m := Exec(at, p).value;
    if i > 0 {
      MatchesAreMatches(at, m.end, i - 1);
    }
  }

  /** The first match starts at the first position where a model block starts. */
  lemma FirstMatch(s: string)
    ensures var ms := Matches(MatchTable(s), 0);
            forall j :: 0 <= j < (if ms == [] then |s| else ms[0].start) ==> MatchModel(s[j..]).None?
  {
    var ms := Matches(MatchTable(s), 0);
    forall j | 0 <= j < (if ms == [] then |s| else ms[0].start)
      ensures MatchModel(s[j..]).None?
    {
      MatchTableAt(s, j);
    }
  }

  /** There is one node per match, and the `i`-th node is built from the `i`-th match:
      its name and the fields of its body (`MatchesAreMatches` and `MatchTableAt` say
      where that match comes from). */
  lemma NodeIsModelBlock(at: seq<Outcome>, i: nat)
    requires Consistent(at) && i < |Matches(at, 0)|
    ensures |Nodes(at)| == |Matches(at, 0)| && Nodes(at)[i] == NodeOf(Matches(at, 0)[i])
  {
    NodesOfMatches(Matches(at, 0), i);
  }

  /** One node per model block, in the order of the blocks, named by the block. */
  lemma NodesOfMatches(ms: seq<ModelMatch>, i: nat)
    requires i < |ms|
    ensures NodesOf(ms)[i] == NodeOf(ms[i])
    decreases |ms|
  {
    if i < |ms| - 1 {
      NodesOfMatches(ms[..|ms| - 1], i);
    }
  }

  /** The field a line yields reads the type token back: the stripped type, then `[]`
      for an array, then `?` for an optional field. */
  lemma FieldOfSound(name: string, token: string, attributes: string)
    ensures var f := FieldOf(name, token, attributes);
            token == f.fieldType + (if f.isArray then "[]" else "") + (if f.isOptional then "?" else "") &&
            (f.isOptional <==> EndsWith(token, "?")) && f.name == name && f.attributes == attributes
  {
    var f := FieldOf(name, token, attributes);
    var t1 := if f.isOptional then token[..|token| - 1] else token;
    assert t1 == f.fieldType + (if f.isArray then "[]" else "");
    if f.isOptional {
      assert token == t1 + "?";
    }
  }

  /** `Post[]?` is an optional list of `Post`. */
  lemma OptionalListField()
    ensures FieldOf("posts", "Post[]?", "") == Field("posts", "Post", true, true, "")
  {
    assert EndsWith("Post[]?", "?");
    assert "Post[]?"[..6] == "Post[]";
    assert EndsWith("Post[]", "[]");
    assert "Post[]"[..4] == "Post";
  }

  /** The field expression, read back: a non-empty name of word characters, blanks, a
      non-empty type token, and a rest that holds no line terminator. */
  lemma FieldMatchSound(line: string)
    requires FieldMatch(line).Some?
    ensures var m := FieldMatch(line).value;
            var name, token, rest := m.0, m.1, m.2;
            name != "" && token != "" &&
            (forall j :: 0 <= j < |name| ==> IsWordChar(name[j])) &&
            (forall j :: 0 <= j < |token| ==> IsTypeChar(token[j])) &&
            (forall j :: 0 <= j < |rest| ==> !IsLineTerminator(rest[j])) &&
            exists sp: string :: sp != "" && IsBlank(sp) && line == name + sp + token + rest
  {
    var k1 := WordRun(line);
    var a := line[k1..];
    var k2 := SpaceRun(a);
    var b := a[k2..];
    var k3 := TypeRun(b);
    var sp := a[..k2];
    FourPieces(line, k1, a, k2, b, k3);
    assert FieldMatch(line).value == (line[..k1], b[..k3], b[k3..]);
    assert sp != "" && IsBlank(sp);
  }

  /** Cutting a line at three successive offsets and concatenating the pieces gives it back. */
  lemma FourPieces(line: string, k1: nat, a: string, k2: nat, b: string, k3: nat)
    requires k1 <= |line| && a == line[k1..] && k2 <= |a| && b == a[k2..] && k3 <= |b|
    ensures line == line[..k1] + a[..k2] + b[..k3] + b[k3..]
  {
    assert a == a[..k2] + b;
    assert b == b[..k3] + b[k3..];
    assert line == line[..k1] + a;
  }

  /** A line that does not start with a word character declares no field; in
      particular `//` comments and `@@` attributes never would. */
  lemma NonWordLineHasNoField(line: string)
    requires line == [] || !IsWordChar(line[0])
    ensures LineFields(line) == []
  {
  }

  /** The lines kept from a list are exactly the listed lines that pass the filter. */
  lemma {:induction false} KeepLinesSound(lines: seq<string>, x: string)
    ensures x in KeepLines(lines) <==> x in lines && Kept(x)
  {
    if lines != [] {
      KeepLinesSound(lines[1..], x);
      assert lines == [lines[0]] + lines[1..];
    }
  }

  /** The lines of a body are the trimmed newline-separated pieces that are not blank, a
      comment, a block attribute, or a `generator`/`datasource` line. */
  lemma BodyLinesSound(body: string, x: string)
    ensures x in BodyLines(body) <==> Kept(x) && x in TrimAll(Split(body, '\n'))
  {
    KeepLinesSound(TrimAll(Split(body, '\n')), x);
  }

  /** The relationships of a model's fields are exactly its fields of non-scalar type,
      pointing from the model through the field to the field's type; a relationship is
      one-to-many exactly when the field is a list. */
  lemma {:induction false} RelationsOfSound(model: string, fields: seq<Field>, r: Relationship)
    ensures r in RelationsOf(model, fields) <==>
              exists f :: f in fields && !IsScalar(f.fieldType) && r == RelationOf(model, f)
  {
    if fields != [] {
      var init := fields[..|fields| - 1];
      RelationsOfSound(model, init, r);
      assert fields == init + [fields[|fields| - 1]];
    }
  }

  lemma {:induction false} AllRelationsSound(nodes: seq<Node>, r: Relationship)
    ensures r in AllRelations(nodes) <==>
              exists n, f :: n in nodes && f in n.fields && !IsScalar(f.fieldType) && r == RelationOf(n.name, f)
  {
    if nodes != [] {
      var init := nodes[..|nodes| - 1];
      var last := nodes[|nodes| - 1];
      AllRelationsSound(init, r);
      RelationsOfSound(last.name, last.fields, r);
      assert nodes == init + [last];
    }
  }

  /** What the parser reports: every relationship comes from a non-scalar field of a
      parsed node, from that node's name, via the field's name, to the field's type,
      one-to-many exactly for list fields; and every such field gives one. */
  lemma RelationshipsSound(s: string, r: Relationship)
    ensures var schema := Parse(s);
            r in schema.relationships <==>
              exists n, f :: n in schema.nodes && f in n.fields && !IsScalar(f.fieldType) &&
                             r.fromModel == n.name && r.via == f.name && r.toModel == f.fieldType &&
                             (r.kind == OneToMany <==> f.isArray)
  {
    AllRelationsSound(Parse(s).nodes, r);
  }

  // ---------------------------------------------------------------------------
  // Hiding isolated nodes

  /** The names `forEach` adds to `connectedNodes`. */
  function Connected(rels: seq<Relationship>): set<string>
  {
    if rels != [] then Connected(rels[..|rels| - 1]) + {rels[|rels| - 1].fromModel, rels[|rels| - 1].toModel}
    else {}
  }

  function KeepConnected(nodes: seq<Node>, connected: set<string>): (r: seq<Node>)
    ensures |r| <= |nodes|
  {
    if nodes == [] then []
    else (if nodes[0].name in connected then [nodes[0]] else []) + KeepConnected(nodes[1..], connected)
  }

  function FilteredNodes(hideIsolated: bool, nodes: seq<Node>, rels: seq<Relationship>): seq<Node>
  {
    if !hideIsolated then nodes else KeepConnected(nodes, Connected(rels))
  }

  /** `getFilteredNodes`. */
  method GetFilteredNodes(hideIsolatedNodes: bool, nodes: seq<Node>, relationships: seq<Relationship>)
    returns (r: seq<Node>)
    ensures r == FilteredNodes(hideIsolatedNodes, nodes, relationships)
  {
    if !hideIsolatedNodes {
      return nodes;
    }
    var connectedNodes: set<string> := {};
    for i := 0 to |relationships|
      invariant connectedNodes == Connected(relationships[..i])
    {
      assert relationships[..i + 1][..i] == relationships[..i];
      connectedNodes := connectedNodes + {relationships[i].fromModel, relationships[i].toModel};
    }
    assert relationships[..|relationships|] == relationships;
    r := KeepConnected(nodes, connectedNodes);
  }

  lemma {:induction false} ConnectedSound(rels: seq<Relationship>, x: string)
    ensures x in Connected(rels) <==> exists i :: 0 <= i < |rels| && (rels[i].fromModel == x || rels[i].toModel == x)
  {
    if rels != [] {
      ConnectedSound(rels[..|rels| - 1], x);
      if x in Connected(rels[..|rels| - 1]) {
        var i :| 0 <= i < |rels| - 1 && (rels[..|rels| - 1][i].fromModel == x || rels[..|rels| - 1][i].toModel == x);
        assert rels[i] == rels[..|rels| - 1][i];
      }
    }
  }

  lemma {:induction false} KeepConnectedSound(nodes: seq<Node>, connected: set<string>, n: Node)
    ensures n in KeepConnected(nodes, connected) <==> n in nodes && n.name in connected
  {
    if nodes != [] {
      KeepConnectedSound(nodes[1..], connected, n);
      assert nodes == [nodes[0]] + nodes[1..];
    }
  }

  /** Hiding isolated nodes keeps exactly the nodes some relationship starts or ends at;
      without hiding every node is kept. */
  lemma FilteredNodesSound(hideIsolated: bool, nodes: seq<Node>, rels: seq<Relationship>, n: Node)
    ensures n in FilteredNodes(hideIsolated, nodes, rels) <==>
              n in nodes &&
              (!hideIsolated || exists i :: 0 <= i < |rels| && (rels[i].fromModel == n.name || rels[i].toModel == n.name))
  {
    if hideIsolated {
      KeepConnectedSound(nodes, Connected(rels), n);
      ConnectedSound(rels, n.name);
    }
  }
}
