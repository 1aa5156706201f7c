/**
 * `MiniHCLTransformer` (`rctl2/transformer.py`): the callbacks that turn the
 * children of each grammar rule into plain values, nodes and `(name, node)`
 * pairs.  Each callback is a function of the list of already transformed
 * children it receives.
 */
module Transformer {
  import opened Wrappers
  import opened Strings
  import opened OrderedDict

  /** What the callbacks build and receive. */
  datatype Term =
    | Text(s: string)                 // a token or a Python `str`
    | IntNum(i: int)
    | FloatNum(text: string)          // a float literal, kept as its text
    | Arr(items: seq<Term>)           // a Python list
    | Obj(entries: Dict<Term>)        // a Python dict
    | Pair(key: string, value: Term)  // a `(name, node)` or `(key, value)` tuple
    | TypeOf(kind: string, ty: Term)  // the `(kind, type)` tuple of `type_expr`

  /** `str(item)` of a token. */
  function StrOf(t: Term): (r: Result<string>)
    ensures r.Ok? <==> t.Text?
    ensures r.Ok? ==> r.value == t.s
  {
    if t.Text? then Ok(t.s) else Raise(TypeError, "not a token")
  }

  /** `items[0]`: `atom`, `statement` and `pair_value`. */
  function First(items: seq<Term>): (r: Result<Term>)
    ensures r.Ok? <==> items != []
    ensures r.Ok? ==> r.value == items[0]
    ensures r.Err? ==> r.Raises(IndexError)
  {
    if items == [] then Raise(IndexError, "list index out of range") else Ok(items[0])
  }

  /** The `(key, value)` pairs of a list whose every item is a pair. */
  function PairsOf(items: seq<Term>): (r: Option<seq<(string, Term)>>)
    ensures r.Some? <==> forall i :: 0 <= i < |items| ==> items[i].Pair?
    ensures r.Some? ==> |r.value| == |items| &&
                        forall i :: 0 <= i < |items| ==> r.value[i] == (items[i].key, items[i].value)
  {
    if items == [] then Some([])
    else if !items[0].Pair? then None
    else
      var rest := PairsOf(items[1..]);
      assert forall i :: 1 <= i < |items| ==> items[i] == items[1..][i - 1];
      if rest.None? then None else Some([(items[0].key, items[0].value)] + rest.value)
  }

  /** `dict(items)` over a list of pairs. */
  function DictOf(items: seq<Term>): (r: Result<Dict<Term>>)
    ensures r.Ok? <==> PairsOf(items).Some?
    ensures r.Err? ==> r.Raises(TypeError)
  {
    var ps := PairsOf(items);
    if ps.None? then Raise(TypeError, "cannot convert dictionary update sequence element")
    else Ok(FromPairs(ps.value))
  }

  /** The names of a list of `(name, node)` pairs, in order. */
  function Names(items: seq<Term>): seq<string>
    requires forall i :: 0 <= i < |items| ==> items[i].Pair?
  {
    if items == [] then [] else [items[0].key] + Names(items[1..])
  }

  /** The node of the last pair named `k`, if any. */
  function LastNode(items: seq<Term>, k: string): Option<Term>
    requires forall i :: 0 <= i < |items| ==> items[i].Pair?
  {
    if items == [] then None
    else if items[|items| - 1].key == k then Some(items[|items| - 1].value)
    else LastNode(items[..|items| - 1], k)
  }

  lemma PairsOfKeys(items: seq<Term>)
    requires forall i :: 0 <= i < |items| ==> items[i].Pair?
    ensures Keys(PairsOf(items).value) == Names(items)
    ensures forall k :: LastValue(PairsOf(items).value, k) == LastNode(items, k)
  {
    PairsOfNames(items);
    forall k
      ensures LastValue(PairsOf(items).value, k) == LastNode(items, k)
    {
      PairsOfLast(items, k);
    }
  }

  lemma {:induction false} PairsOfNames(items: seq<Term>)
    requires forall i :: 0 <= i < |items| ==> items[i].Pair?
    ensures Keys(PairsOf(items).value) == Names(items)
    decreases |items|
  {
    if items != [] {
      var ps := PairsOf(items).value;
      PairsOfNames(items[1..]);
      assert ps[1..] == PairsOf(items[1..]).value;
      assert Keys(ps) == [ps[0].0] + Keys(ps[1..]);
    }
  }

  lemma {:induction false} PairsOfLast(items: seq<Term>, k: string)
    requires forall i :: 0 <= i < |items| ==> items[i].Pair?
    ensures LastValue(PairsOf(items).value, k) == LastNode(items, k)
    decreases |items|
  {
    if items != [] {
      var ps := PairsOf(items).value;
      var init := items[..|items| - 1];
      PairsOfLast(init, k);
      assert ps[..|ps| - 1] == PairsOf(init).value;
    }
  }

  /**
   * `start`: `dict(items)` of the statements' `(name, node)` pairs.  A
   * repeated name keeps the position of its first occurrence and the node
   * of its last.
   */
  lemma StartSpec(items: seq<Term>)
    requires forall i :: 0 <= i < |items| ==> items[i].Pair?
    ensures DictOf(items).Ok?
    ensures Unique(DictOf(items).value)
    ensures Keys(DictOf(items).value) == Dedup([], Names(items))
    ensures forall k :: Get(DictOf(items).value, k) == LastNode(items, k)
  {
    PairsOfKeys(items);
    FromPairsSpec(PairsOf(items).value);
  }

  /** `start`. */
  function Start(items: seq<Term>): (r: Result<Term>)
    ensures r.Ok? <==> DictOf(items).Ok?
    ensures r.Ok? ==> r == Ok(Obj(DictOf(items).value))
  {
    var d :- DictOf(items);
    Ok(Obj(d))
  }

  /** The record `assignment` and `group_block` build for a node. */
  function Node(kind: string, ty: Term, attr: Term, lastKey: string, last: Term): (r: Term)
    ensures r.Obj? && Keys(r.entries) == ["kind", "type", "attr", lastKey]
    ensures Get(r.entries, "attr") == Some(attr)
  {
    var entries := [("kind", Text(kind)), ("type", ty), ("attr", attr), (lastKey, last)];
    assert "kind"[0] != "attr"[0] && "type"[0] != "attr"[0];
    assert entries[1..][1..][0] == ("attr", attr);
    assert Get(entries[1..][1..], "attr") == Some(attr);
    assert Get(entries[1..], "attr") == Some(attr);
    Obj(entries)
  }

  /** The children of `assignment` once a missing annotation has been filled in with `{}`. */
  function WithAttr(items: seq<Term>): (r: seq<Term>)
    requires items != []
    ensures r != [] && r[0].Obj?
    ensures items[0].Obj? ==> r == items
    ensures !items[0].Obj? ==> r == [Obj([])] + items
  {
    if items[0].Obj? then items else [Obj([])] + items
  }

  /**
   * `assignment`: with a type expression (five children) the node's kind
   * and type are the lower-cased halves of it; without one (four children)
   * it is a "variable" of type "default"; any other count raises.
   */
  function Assignment(items: seq<Term>): (r: Result<Term>)
    ensures items == [] ==> r.Raises(IndexError)
    ensures items != [] && |WithAttr(items)| !in {4, 5} ==> r.Raises(GenericException)
    ensures items != [] && |WithAttr(items)| == 4 && WithAttr(items)[1].Text? ==>
              var c := WithAttr(items);
              r == Ok(Pair(c[1].s, Node("variable", Text("default"), c[0], "value", c[3])))
    ensures r.Ok? && |WithAttr(items)| == 5 ==>
              var c := WithAttr(items);
              && c[1].Text? && c[2].TypeOf? && c[2].ty.Text?
              && r == Ok(Pair(c[1].s, Node(Lower(c[2].kind), Text(Lower(c[2].ty.s)), c[0], "value", c[4])))
    ensures r.Ok? ==> r.value.Pair? && r.value.value.Obj? && Get(r.value.value.entries, "attr").Some?
                      && Get(r.value.value.entries, "attr").value.Obj?
  {
    if items == [] then Raise(IndexError, "list index out of range")
    else
      var c := WithAttr(items);
      if |c| == 5 then
        var name :- StrOf(c[1]);
        if !c[2].TypeOf? then Raise(TypeError, "not a type expression")
        else if !c[2].ty.Text? then Raise(AttributeError, "'lower'")
        else Ok(Pair(name, Node(Lower(c[2].kind), Text(Lower(c[2].ty.s)), c[0], "value", c[4])))
      else if |c| == 4 then
        var name :- StrOf(c[1]);
        Ok(Pair(name, Node("variable", Text("default"), c[0], "value", c[3])))
      else Raise(GenericException, "")
  }

  /** `attr`: the annotation body, or `{}` when there is none. */
  function Attr(items: seq<Term>): (r: Term)
    ensures items == [] ==> r == Obj([])
    ensures items != [] ==> r == items[0]
  {
    if items == [] then Obj([]) else items[0]
  }

  /** `attr_body` and `object`: `dict(items)`. */
  function Object(items: seq<Term>): (r: Result<Term>)
    ensures r.Ok? <==> PairsOf(items).Some?
    ensures r.Ok? ==> r.value.Obj? && r.value.entries == FromPairs(PairsOf(items).value)
  {
    var d :- DictOf(items);
    Ok(Obj(d))
  }

  /**
   * `group_block`: kind "group", the group keyword as it was written (it
   * is not lower-cased), `{}` when there is no annotation, and the body's
   * statements as a dict.  Other than three or four children raises
   * `ValueError` (unpacking).
   */
  function GroupBlock(items: seq<Term>): (r: Result<Term>)
    ensures |items| !in {3, 4} ==> r.Raises(ValueError)
    ensures r.Ok? ==>
              var c := if |items| == 4 then items else [Obj([])] + items;
              && c[1].Text? && c[3].Arr? && PairsOf(c[3].items).Some?
              && r == Ok(Pair(c[1].s, Node("group", c[2], c[0], "body", Obj(FromPairs(PairsOf(c[3].items).value)))))
    ensures |items| == 3 && r.Ok? ==> Get(r.value.value.entries, "attr") == Some(Obj([]))
  {
    if |items| != 3 && |items| != 4 then Raise(ValueError, "not enough values to unpack")
    else
      var c := if |items| == 4 then items else [Obj([])] + items;
      var name :- StrOf(c[1]);
      if !c[3].Arr? then Raise(TypeError, "body is not a list")
      else
        var body :- DictOf(c[3].items);
        Ok(Pair(name, Node("group", c[2], c[0], "body", Obj(body))))
  }

  /** `group_type`: the keyword as text, "" when absent. */
  function GroupType(items: seq<Term>): (r: Result<Term>)
    ensures items == [] ==> r == Ok(Text(""))
    ensures items != [] ==> (r.Ok? <==> items[0].Text?) && (r.Ok? ==> r.value == items[0])
  {
    if items == [] then Ok(Text(""))
    else
      var s :- StrOf(items[0]);
      Ok(Text(s))
  }

  /** `block` and `array`: the children as a list. */
  function Block(items: seq<Term>): Term {
    Arr(items)
  }

  /**
   * `group_block` over the statements a `block` collected: a group node
   * named by the identifier, with `{}` as its annotation, whose body holds
   * each statement's name once, with the node of its last statement.
   */
  lemma GroupOfBlock(id: string, groupType: Term, stmts: seq<Term>)
    requires forall i :: 0 <= i < |stmts| ==> stmts[i].Pair?
    ensures var g := GroupBlock([Text(id), groupType, Block(stmts)]);
            && g.Ok? && g.value.key == id
            && g.value.value == Node("group", groupType, Obj([]), "body", Obj(DictOf(stmts).value))
            && Unique(DictOf(stmts).value)
            && Keys(DictOf(stmts).value) == Dedup([], Names(stmts))
            && forall k :: Get(DictOf(stmts).value, k) == LastNode(stmts, k)
  {
    StartSpec(stmts);
    GroupOfBody(id, groupType, stmts);
  }

  /** `group_block` over three children whose body converts to a dict. */
  lemma GroupOfBody(id: string, groupType: Term, stmts: seq<Term>)
    requires DictOf(stmts).Ok?
    ensures GroupBlock([Text(id), groupType, Block(stmts)])
            == Ok(Pair(id, Node("group", groupType, Obj([]), "body", Obj(DictOf(stmts).value))))
  {
    var c := [Obj([])] + [Text(id), groupType, Block(stmts)];
    assert c[1] == Text(id) && c[2] == groupType && c[3] == Arr(stmts);
  }

  /** `type_expr`: one child is a kind of type "default", two are kind and type, other counts raise. */
  function TypeExpr(items: seq<Term>): (r: Result<Term>)
    ensures |items| !in {1, 2} ==> r.Raises(GenericException)
    ensures |items| == 1 && items[0].Text? ==> r == Ok(TypeOf(items[0].s, Text("default")))
    ensures |items| == 2 && items[0].Text? ==> r == Ok(TypeOf(items[0].s, items[1]))
  {
    if |items| == 1 then
      var kind :- StrOf(items[0]);
      Ok(TypeOf(kind, Text("default")))
    else if |items| == 2 then
      var kind :- StrOf(items[0]);
      Ok(TypeOf(kind, items[1]))
    else Raise(GenericException, "")
  }

  /** `pair`: `key value` or `key = value`; other counts raise. */
  function PairOf(items: seq<Term>): (r: Result<Term>)
    ensures |items| !in {2, 3} ==> r.Raises(GenericException)
    ensures |items| in {2, 3} && items[0].Text? ==> r == Ok(Pair(items[0].s, items[|items| - 1]))
  {
    if |items| == 2 || |items| == 3 then
      var key :- StrOf(items[0]);
      Ok(Pair(key, items[|items| - 1]))
    else Raise(GenericException, "")
  }

  /** The value written last under key `k` by the children of a run of `pair` rules. */
  function LastWritten(raw: seq<seq<Term>>, k: string): Option<Term>
    requires forall i :: 0 <= i < |raw| ==> raw[i] != []
  {
    if raw == [] then None
    else
      var p := raw[|raw| - 1];
      if p[0] == Text(k) then Some(p[|p| - 1]) else LastWritten(raw[..|raw| - 1], k)
  }

  /** The pairs built from a run of `pair` rules hold, for each key, the value written last. */
  lemma {:induction false} LastNodeWritten(raw: seq<seq<Term>>, items: seq<Term>, k: string)
    requires |items| == |raw|
    requires forall i :: 0 <= i < |raw| ==> |raw[i]| in {2, 3} && raw[i][0].Text? && PairOf(raw[i]) == Ok(items[i])
    ensures forall i :: 0 <= i < |items| ==> items[i].Pair?
    ensures LastNode(items, k) == LastWritten(raw, k)
    decreases |raw|
  {
    if raw != [] {
      var n := |raw|;
      LastNodeWritten(raw[..n - 1], items[..n - 1], k);
      assert items[..n - 1] == items[..|items| - 1];
    }
  }

  /**
   * `object` over the results of its `pair` rules: `dict` succeeds, keeps
   * one entry per key, and each key holds the value written last for it.
   */
  lemma ObjectOfPairs(raw: seq<seq<Term>>, items: seq<Term>)
    requires |items| == |raw|
    requires forall i :: 0 <= i < |raw| ==> |raw[i]| in {2, 3} && raw[i][0].Text? && PairOf(raw[i]) == Ok(items[i])
    ensures Object(items).Ok?
    ensures Unique(Object(items).value.entries)
    ensures forall k :: Get(Object(items).value.entries, k) == LastWritten(raw, k)
  {
    LastNodeWritten(raw, items, "");
    PairsOfKeys(items);
    FromPairsSpec(PairsOf(items).value);
    forall k
      ensures Get(Object(items).value.entries, k) == LastWritten(raw, k)
    {
      LastNodeWritten(raw, items, k);
    }
  }

  /** The node `assignment` builds for `name = value` with neither annotation nor type. */
  function VariableNode(v: Term): Term {
    Node("variable", Text("default"), Obj([]), "value", v)
  }

  /**
   * A `name = value` statement, transformed bottom-up: `identifier` gives the
   * name's text, `atom` passes the value through, `assignment` fills in the
   * missing annotation and builds the variable node, and `statement` passes
   * the pair through.
   */
  lemma VariableStatement(name: string, eq: Term, v: Term)
    ensures var ident := Identifier([Text(name)]);
            var atom := First([v]);
            && ident == Ok(Text(name)) && atom == Ok(v)
            && var asg := Assignment([ident.value, eq, atom.value]);
               && asg == Ok(Pair(name, VariableNode(v)))
               && First([asg.value]) == asg
  {
    VariableAssignment(name, eq, v);
  }

  /** `assignment` over a name, `=` and a value. */
  lemma VariableAssignment(name: string, eq: Term, v: Term)
    ensures Assignment([Text(name), eq, v]) == Ok(Pair(name, VariableNode(v)))
  {
    var c := WithAttr([Text(name), eq, v]);
    assert c == [Obj([]), Text(name), eq, v];
  }

  /** The node paired last with name `k`, when `names[i]` is paired with `nodes[i]`. */
  function LastAssigned(names: seq<string>, nodes: seq<Term>, k: string): Option<Term>
    requires |names| == |nodes|
  {
    if names == [] then None
    else if names[|names| - 1] == k then Some(nodes[|nodes| - 1])
    else LastAssigned(names[..|names| - 1], nodes[..|nodes| - 1], k)
  }

  /** The variable node of each value, in order. */
  function VariableNodes(values: seq<Term>): (r: seq<Term>)
    ensures |r| == |values|
    ensures forall i :: 0 <= i < |values| ==> r[i] == VariableNode(values[i])
  {
    seq(|values|, i requires 0 <= i < |values| => VariableNode(values[i]))
  }

  lemma {:induction false} AssignedNames(names: seq<string>, nodes: seq<Term>, stmts: seq<Term>)
    requires |names| == |nodes| == |stmts|
    requires forall i :: 0 <= i < |stmts| ==> stmts[i] == Pair(names[i], nodes[i])
    ensures Names(stmts) == names
  {
    if stmts != [] {
      AssignedNames(names[1..], nodes[1..], stmts[1..]);
    }
  }

  lemma {:induction false} AssignedLast(names: seq<string>, nodes: seq<Term>, stmts: seq<Term>, k: string)
    requires |names| == |nodes| == |stmts|
    requires forall i :: 0 <= i < |stmts| ==> stmts[i] == Pair(names[i], nodes[i])
    ensures LastNode(stmts, k) == LastAssigned(names, nodes, k)
    decreases |stmts|
  {
    if stmts != [] {
      var n := |stmts|;
      assert stmts[n - 1].key == names[n - 1] && stmts[n - 1].value == nodes[n - 1];
      if names[n - 1] != k {
        AssignedLast(names[..n - 1], nodes[..n - 1], stmts[..n - 1], k);
      }
    }
  }

  /**
   * `start` over the variable statements of a document: every assigned name
   * is a key once, in order of first assignment, holding the variable node
   * of its last assignment.
   */
  lemma DocumentOfVariables(names: seq<string>, values: seq<Term>, stmts: seq<Term>)
    requires |names| == |values| == |stmts|
    requires forall i :: 0 <= i < |stmts| ==> stmts[i] == Pair(names[i], VariableNode(values[i]))
    ensures Start(stmts).Ok? && Start(stmts).value.Obj?
    ensures Keys(Start(stmts).value.entries) == Dedup([], names)
    ensures forall k :: Get(Start(stmts).value.entries, k) == LastAssigned(names, VariableNodes(values), k)
  {
    var nodes := VariableNodes(values);
    StartSpec(stmts);
    AssignedNames(names, nodes, stmts);
    forall k
      ensures Get(Start(stmts).value.entries, k) == LastAssigned(names, nodes, k)
    {
      AssignedLast(names, nodes, stmts, k);
    }
  }

  /** `identifier`: the first child as text. */
  function Identifier(items: seq<Term>): (r: Result<Term>)
    ensures r.Ok? <==> items != [] && items[0].Text?
    ensures r.Ok? ==> r.value == items[0]
  {
    var first :- First(items);
    var s :- StrOf(first);
    Ok(Text(s))
  }

  /**
   * `STRING`: the token with every leading and trailing '"' removed, and
   * nothing else changed: no escape sequence is interpreted.
   */
  function StringToken(token: string): (r: Term)
    ensures r.Text?
    ensures r.s == [] || (r.s[0] != '"' && r.s[|r.s| - 1] != '"')
    ensures var k := |token| - |LStrip(token, '"')|;
            && k + |r.s| <= |token|
            && (forall i :: 0 <= i < |r.s| ==> r.s[i] == token[k + i])
            && (forall i :: 0 <= i < k ==> token[i] == '"')
            && (forall i :: k + |r.s| <= i < |token| ==> token[i] == '"')
  {
    Text(Strip(token, '"'))
  }

  /** The value of a non-empty run of decimal digits. */
  function DigitsValue(ds: string): nat
    requires forall i :: 0 <= i < |ds| ==> '0' <= ds[i] <= '9'
  {
    if ds == [] then 0 else DigitsValue(ds[..|ds| - 1]) * 10 + (ds[|ds| - 1] as int - '0' as int)
  }

  /** An optional "+" or "-" followed by at least one decimal digit. */
  predicate IntLiteral(text: string) {
    && text != []
    && ('0' <= text[0] <= '9' || (text[0] in {'+', '-'} && |text| > 1))
    && forall i :: 0 < i < |text| ==> '0' <= text[i] <= '9'
  }

  /** `int(text)` for an optionally signed run of decimal digits; anything else is a `ValueError`. */
  function ParseInt(text: string): (r: Result<int>)
    ensures r.Ok? <==> IntLiteral(text)
    ensures r.Err? ==> r.Raises(ValueError)
    ensures r.Ok? ==> (r.value < 0 ==> text[0] == '-') && (text[0] != '-' ==> r.value >= 0)
  {
    var sign := if text != [] && (text[0] == '-' || text[0] == '+') then 1 else 0;
    var ds := text[sign..];
    if ds == [] || exists i :: 0 <= i < |ds| && !('0' <= ds[i] <= '9') then
      Raise(ValueError, "invalid literal for int() with base 10")
    else if sign == 1 && text[0] == '-' then Ok(0 - DigitsValue(ds) as int)
    else Ok(DigitsValue(ds))
  }

  /** The decimal digits of a natural number, as `str` writes them. */
  function Decimal(n: nat): (r: string)
    ensures r != []
    ensures forall i :: 0 <= i < |r| ==> '0' <= r[i] <= '9'
  {
    var d := ['0' + (n % 10) as char];
    if n < 10 then d else Decimal(n / 10) + d
  }

  /** Reading back the decimal digits of a number gives the number. */
  lemma {:induction false} DecimalDigits(n: nat)
    ensures DigitsValue(Decimal(n)) == n
  {
    var r := Decimal(n);
    if n >= 10 {
      DecimalDigits(n / 10);
      assert r[..|r| - 1] == Decimal(n / 10);
    } else {
      assert r[..0] == [];
    }
  }

  /** `int(str(i))` gives `i` back, for every integer. */
  lemma ParseDecimal(i: int)
    ensures ParseInt(if i < 0 then "-" + Decimal(-i) else Decimal(i)) == Ok(i)
  {
    if i < 0 {
      ParseNegative(-i);
    } else {
      ParseNatural(i);
    }
  }

  lemma ParseNatural(n: nat)
    ensures ParseInt(Decimal(n)) == Ok(n)
  {
    var d := Decimal(n);
    DecimalDigits(n);
    assert d[0..] == d;
  }

  lemma ParseNegative(n: nat)
    ensures ParseInt("-" + Decimal(n)) == Ok(-(n as int))
  {
    var text := "-" + Decimal(n);
    DecimalDigits(n);
    assert text[1..] == Decimal(n);
  }

  /** Whether a number literal is a float: it has a "." or an "e" in either case. */
  predicate IsFloatLiteral(n: string) {
    '.' in n || 'e' in Lower(n)
  }

  /** `SIGNED_NUMBER`: a float when the text has "." or "e"/"E", an int otherwise. */
  function SignedNumber(n: string): (r: Result<Term>)
    ensures IsFloatLiteral(n) <==> '.' in n || 'e' in n || 'E' in n
    ensures IsFloatLiteral(n) ==> r == Ok(FloatNum(n))
    ensures !IsFloatLiteral(n) ==> (r.Ok? <==> ParseInt(n).Ok?) && (r.Ok? ==> r.value == IntNum(ParseInt(n).value))
  {
    assert 'e' in Lower(n) <==> 'e' in n || 'E' in n by {
      assert forall i :: 0 <= i < |n| ==> (Lower(n)[i] == 'e' <==> n[i] == 'e' || n[i] == 'E');
      if 'e' in Lower(n) {
        var i :| 0 <= i < |n| && Lower(n)[i] == 'e';
      }
      if 'e' in n || 'E' in n {
        var i :| 0 <= i < |n| && (n[i] == 'e' || n[i] == 'E');
        assert Lower(n)[i] == 'e';
      }
    }
    if IsFloatLiteral(n) then Ok(FloatNum(n))
    else
      var i :- ParseInt(n);
      Ok(IntNum(i))
  }
}
