/**
 Aggregate extraction of `crates/parser/src/planner.rs`: aggregate calls are collected into lists
 shared by the SELECT items, HAVING and ORDER BY, and replaced by columns of the grouped table.
 */
module AggregateRewrite {
  import opened Wrappers
  import opened Names
  import opened Ir
  import opened Evaluator

  // ---------- Canonical names ----------

  /** How the pieces of a name are printed, and the type inference: parameters of the rewrite. */
  datatype Printer = Printer(
    literal: Value -> string,
    dataType: DataType -> string,
    scalar: ScalarFunction -> string,
    other: Expr -> string,
    typeOf: Expr -> DataType)

  function Join(parts: seq<string>): string {
    if parts == [] then "" else if |parts| == 1 then parts[0] else parts[0] + "," + Join(parts[1..])
  }

  function OpText(op: BinaryOp): string {
    match op
    case Add => "+" case Sub => "-" case Mul => "*" case Div => "/" case Mod => "%"
    case Eq => "=" case NotEq => "!=" case Lt => "<" case LtEq => "<=" case Gt => ">" case GtEq => ">="
    case And => "AND" case Or => "OR" case Concat => "||"
    case BitwiseAnd => "&" case BitwiseOr => "|" case BitwiseXor => "^" case ShiftLeft => "<<" case ShiftRight => ">>"
  }

  function UnaryText(op: UnaryOp): string {
    match op
    case Not => "NOT "
    case Minus => "-"
    case Plus => "+"
    case BitwiseNot => "~"
  }

  /** The name under which an expression is recorded; ORDER BY, LIMIT, FILTER and IGNORE NULLS of an aggregate leave no trace. */
  function CanonicalName(p: Printer, e: Expr): string
    decreases e
  {
    match e
    case Column(table, name, _) => if table.Some? then Upper(table.value) + "." + Upper(name) else Upper(name)
    case Aggregate(func, args, distinct, _, _, _, _) =>
      func + "(" + (if distinct then "DISTINCT" else "")
      + Join(seq(|args|, i requires 0 <= i < |args| => CanonicalName(p, args[i]))) + ")"
    case Binary(l, op, r) => "(" + CanonicalName(p, l) + OpText(op) + CanonicalName(p, r) + ")"
    case Unary(op, x) => UnaryText(op) + CanonicalName(p, x)
    case Literal(v) => p.literal(v)
    case Cast(x, t, safe) => (if safe then "SAFE_CAST(" else "CAST(") + CanonicalName(p, x) + " AS " + Upper(p.dataType(t)) + ")"
    case Scalar(fn, args) => Upper(p.scalar(fn) + "(" + Join(seq(|args|, i requires 0 <= i < |args| => CanonicalName(p, args[i]))) + ")")
    case Alias(x, _) => CanonicalName(p, x)
    case _ => Upper(p.other(e))
  }

  /** Two calls that differ only in what the name forgets share a name. */
  lemma NameForgets(p: Printer, e: Expr, filter: Option<Expr>, orderBy: seq<SortExpr>, limit: Option<nat>, ignoreNulls: bool)
    requires e.Aggregate?
    ensures CanonicalName(p, Aggregate(e.func, e.args, e.distinct, filter, orderBy, limit, ignoreNulls)) == CanonicalName(p, e)
  {
    var f := Aggregate(e.func, e.args, e.distinct, filter, orderBy, limit, ignoreNulls);
    assert seq(|e.args|, i requires 0 <= i < |e.args| => CanonicalName(p, e.args[i])) == seq(|f.args|, i requires 0 <= i < |f.args| => CanonicalName(p, f.args[i]));
  }

  function ArgumentsText(p: Printer, args: seq<Expr>): string {
    Join(seq(|args|, i requires 0 <= i < |args| => CanonicalName(p, args[i])))
  }

  lemma NameParts(p: Printer, e: Expr)
    requires e.Aggregate?
    ensures CanonicalName(p, e) == e.func + "(" + (if e.distinct then "DISTINCT" else "") + ArgumentsText(p, e.args) + ")"
  {
    hide Upper, Join, OpText, UnaryText;
  }

  /** On the same arguments the name tells exactly the function and DISTINCT. */
  lemma NameTellsIff(p: Printer, e: Expr, other: Expr)
    requires e.Aggregate? && other.Aggregate? && e.args == other.args
    ensures CanonicalName(p, e) == CanonicalName(p, other) <==> e.func == other.func && e.distinct == other.distinct
  {
    hide CanonicalName, ArgumentsText;
    NameParts(p, e);
    NameParts(p, other);
    var x := e.func + "(" + (if e.distinct then "DISTINCT" else "");
    var y := other.func + "(" + (if other.distinct then "DISTINCT" else "");
    var args := ArgumentsText(p, e.args);
    assert x + args + ")" == x + (args + ")") && y + args + ")" == y + (args + ")");
    SameSuffix(x, y, args + ")");
    OpenedNames(e.func, e.distinct, other.func, other.distinct);
  }

  lemma SameSuffix(a: string, b: string, rest: string)
    ensures a + rest == b + rest <==> a == b
  {
    if a + rest == b + rest {
      assert a == (a + rest)[..|a|] && b == (b + rest)[..|b|];
    }
  }

  lemma OpenedNames(f: string, d: bool, g: string, e: bool)
    ensures f + "(" + (if d then "DISTINCT" else "") == g + "(" + (if e then "DISTINCT" else "") <==> f == g && d == e
  {
    var x, y := f + "(" + (if d then "DISTINCT" else ""), g + "(" + (if e then "DISTINCT" else "");
    assert x[|x| - 1] == if d then 'T' else '(';
    assert y[|y| - 1] == if e then 'T' else '(';
    if x == y {
      SameSuffix(f, g, "(" + (if d then "DISTINCT" else ""));
      assert f + ("(" + (if d then "DISTINCT" else "")) == x && g + ("(" + (if d then "DISTINCT" else "")) == y;
    }
  }

  /** Printed arguments, DISTINCT included. */
  function InnerText(p: Printer, e: Expr): string
    requires e.Aggregate?
  {
    (if e.distinct then "DISTINCT" else "") + ArgumentsText(p, e.args)
  }

  /** Whatever the arguments, two calls share a name exactly when the functions are one and what is printed inside is. */
  lemma NamesCollideIff(p: Printer, e: Expr, other: Expr)
    requires e.Aggregate? && other.Aggregate? && '(' !in e.func && '(' !in other.func
    ensures CanonicalName(p, e) == CanonicalName(p, other)
            <==> && e.func == other.func
                 && (if e.distinct == other.distinct then ArgumentsText(p, e.args) == ArgumentsText(p, other.args)
                     else if e.distinct then "DISTINCT" + ArgumentsText(p, e.args) == ArgumentsText(p, other.args)
                     else ArgumentsText(p, e.args) == "DISTINCT" + ArgumentsText(p, other.args))
  {
    hide CanonicalName, ArgumentsText;
    NameParts(p, e);
    NameParts(p, other);
    var x, y := InnerText(p, e), InnerText(p, other);
    assert CanonicalName(p, e) == e.func + "(" + (x + ")") && CanonicalName(p, other) == other.func + "(" + (y + ")");
    FirstParenthesis(e.func, x + ")", other.func, y + ")");
    SameSuffix(x, y, ")");
    var a, b := ArgumentsText(p, e.args), ArgumentsText(p, other.args);
    SamePrefix("DISTINCT", a, b);
    assert "" + a == a && "" + b == b;
  }

  lemma FirstParenthesis(f: string, x: string, g: string, y: string)
    requires '(' !in f && '(' !in g
    ensures f + "(" + x == g + "(" + y <==> f == g && x == y
  {
    var a, b := f + "(" + x, g + "(" + y;
    assert a[|f|] == '(' && b[|g|] == '(';
    assert a[..|f|] == f && b[..|g|] == g && a[|f| + 1..] == x && b[|g| + 1..] == y;
    if a == b {
      SameLength(f, g, a, '(');
    }
  }

  /** Two beginnings of a text, both before a character neither has. */
  lemma SameLength(f: string, g: string, t: string, c: char)
    requires f <= t && g <= t && c !in f && c !in g
    requires (|f| < |t| ==> t[|f|] == c) && (|g| < |t| ==> t[|g|] == c)
    ensures |f| == |g|
  {
    Longer(f, g, t, c);
    Longer(g, f, t, c);
  }

  lemma Longer(f: string, g: string, t: string, c: char)
    requires f <= t && g <= t && (|f| < |t| ==> t[|f|] == c)
    ensures |f| < |g| ==> c in g
  {
    if |f| < |g| {
      assert g[|f|] == c;
    }
  }

  lemma SamePrefix(front: string, a: string, b: string)
    ensures front + a == front + b <==> a == b
  {
    assert (front + a)[|front|..] == a && (front + b)[|front|..] == b;
  }

  /** Unqualified columns, by name. */
  function ColumnsNamed(names: seq<string>): (es: seq<Expr>)
    ensures |es| == |names|
  {
    seq(|names|, i requires 0 <= i < |names| => Column(None, names[i], None))
  }

  function UpperAll(names: seq<string>): (r: seq<string>)
    ensures |r| == |names|
  {
    seq(|names|, i requires 0 <= i < |names| => Upper(names[i]))
  }

  function PrintedAll(p: Printer, es: seq<Expr>): (r: seq<string>)
    ensures |r| == |es|
    ensures forall i | 0 <= i < |es| :: r[i] == CanonicalName(p, es[i])
  {
    seq(|es|, i requires 0 <= i < |es| => CanonicalName(p, es[i]))
  }

  /** Arguments of any form, printed without commas, are printed alike exactly when each is. */
  lemma ArgumentsIff(p: Printer, xs: seq<Expr>, ys: seq<Expr>)
    requires forall t | t in PrintedAll(p, xs) + PrintedAll(p, ys) :: t != "" && ',' !in t
    ensures ArgumentsText(p, xs) == ArgumentsText(p, ys) <==> PrintedAll(p, xs) == PrintedAll(p, ys)
  {
    hide CanonicalName, Join;
    assert ArgumentsText(p, xs) == Join(PrintedAll(p, xs)) && ArgumentsText(p, ys) == Join(PrintedAll(p, ys));
    JoinTells(PrintedAll(p, xs), PrintedAll(p, ys));
  }

  /** Two columns, qualified or not, without dots in their names, are printed alike exactly when they are the same, case aside. */
  lemma ColumnNameIff(p: Printer, c: Expr, d: Expr)
    requires c.Column? && d.Column? && NoDots(c) && NoDots(d)
    ensures CanonicalName(p, c) == CanonicalName(p, d)
            <==> && Upper(c.name) == Upper(d.name)
                 && c.table.Some? == d.table.Some? && (c.table.Some? ==> Upper(c.table.value) == Upper(d.table.value))
  {
    var t := CanonicalName(p, c);
    UnqualifiedPart(p, c);
    UnqualifiedPart(p, d);
    hide CanonicalName, Upper;
    if t == CanonicalName(p, d) && c.table.Some? && d.table.Some? {
      var a, b := Upper(c.table.value), Upper(d.table.value);
      SameLength(a, b, t, '.');
    }
  }

  predicate NoDots(c: Expr)
    requires c.Column?
  {
    '.' !in Upper(c.name) && (c.table.Some? ==> '.' !in Upper(c.table.value))
  }

  /** Of a qualified column the text up to the dot is the table's. */
  lemma UnqualifiedPart(p: Printer, c: Expr)
    requires c.Column? && NoDots(c)
    ensures var t := CanonicalName(p, c);
            if c.table.None? then t == Upper(c.name) && '.' !in t
            else
              var a := Upper(c.table.value);
              a <= t && |a| < |t| && t[|a|] == '.' && t[|a| + 1..] == Upper(c.name) && '.' !in a && '.' in t
  {
    hide Upper;
    if c.table.Some? {
      var a := Upper(c.table.value);
      assert CanonicalName(p, c)[|a|] == '.';
    }
  }

  /** Column arguments without commas in their names are printed alike exactly when they are the same names, case aside. */
  lemma ColumnArgumentsIff(p: Printer, xs: seq<string>, ys: seq<string>)
    requires forall x | x in xs + ys :: x != "" && ',' !in x
    ensures ArgumentsText(p, ColumnsNamed(xs)) == ArgumentsText(p, ColumnsNamed(ys)) <==> UpperAll(xs) == UpperAll(ys)
  {
    NamedText(p, xs);
    NamedText(p, ys);
    hide ArgumentsText, ColumnsNamed;
    forall u | u in UpperAll(xs) + UpperAll(ys)
      ensures u != "" && ',' !in u
    {
      var x :| x in xs + ys && u == Upper(x);
      NoCommaUpper(x);
    }
    hide Upper;
    ArgumentsIff(p, ColumnsNamed(xs), ColumnsNamed(ys));
  }

  lemma NoCommaUpper(x: string)
    requires ',' !in x
    ensures ',' !in Upper(x)
  {
    forall i | 0 <= i < |x|
      ensures Upper(x)[i] != ','
    {
      assert x[i] in x;
    }
  }

  lemma NamedText(p: Printer, names: seq<string>)
    ensures PrintedAll(p, ColumnsNamed(names)) == UpperAll(names)
  {
    hide Upper;
  }

  lemma {:induction false} JoinTells(a: seq<string>, b: seq<string>)
    requires forall u | u in a + b :: u != "" && ',' !in u
    ensures Join(a) == Join(b) <==> a == b
    decreases |a|
  {
    if a != [] && b != [] {
      assert a[0] in a + b && b[0] in a + b;
      forall u | u in a[1..] + b[1..]
        ensures u in a + b
      {
      }
      JoinTells(a[1..], b[1..]);
      JoinHead(a);
      JoinHead(b);
      if Join(a) == Join(b) {
        SameHeads(a, b);
      }
    } else if a != [] {
      JoinHead(a);
      assert a[0] in a + b;
    } else if b != [] {
      JoinHead(b);
      assert b[0] in a + b;
    }
  }

  /** The text is the first name, then a comma if more follow. */
  lemma JoinHead(a: seq<string>)
    requires a != []
    ensures a[0] <= Join(a)
    ensures |a| == 1 ==> Join(a) == a[0]
    ensures |a| > 1 ==> |Join(a)| > |a[0]| && Join(a)[|a[0]|] == ',' && Join(a)[|a[0]| + 1..] == Join(a[1..])
  {
    if |a| > 1 {
      assert Join(a) == a[0] + "," + Join(a[1..]);
    }
  }

  lemma SameHeads(a: seq<string>, b: seq<string>)
    requires a != [] && b != [] && Join(a) == Join(b) && ',' !in a[0] && ',' !in b[0]
    requires forall u | u in a + b :: u != ""
    requires Join(a[1..]) == Join(b[1..]) ==> a[1..] == b[1..]
    ensures a == b
  {
    hide Join;
    JoinHead(a);
    JoinHead(b);
    var t := Join(a);
    assert a[0] == t[..|a[0]|] && b[0] == t[..|b[0]|];
    SameLength(a[0], b[0], t, ',');
    assert a == [a[0]] + a[1..] && b == [b[0]] + b[1..];
  }

  function OfColumn(func: string, name: string, distinct: bool): Expr {
    Aggregate(func, [Column(None, name, None)], distinct, None, [], None, false)
  }

  lemma OfColumnName(p: Printer, func: string, name: string, distinct: bool)
    ensures CanonicalName(p, OfColumn(func, name, distinct)) == func + "(" + (if distinct then "DISTINCT" else "") + Upper(name) + ")"
  {
    var c := Column(None, name, None);
    NameParts(p, OfColumn(func, name, distinct));
    assert seq(1, i requires 0 <= i < 1 => CanonicalName(p, [c][i])) == [CanonicalName(p, c)];
  }

  lemma UpperDistinct()
    ensures Upper("distinct") == "DISTINCT"
  {
    var u := Upper("distinct");
    assert u[0] == 'D' && u[1] == 'I' && u[2] == 'S' && u[3] == 'T' && u[4] == 'I' && u[5] == 'N' && u[6] == 'C' && u[7] == 'T';
  }

  /** `COUNT(DISTINCT x)` has the name of `COUNT(distinctx)`. */
  lemma DistinctConfused(p: Printer, func: string, x: string)
    ensures CanonicalName(p, OfColumn(func, x, true)) == CanonicalName(p, OfColumn(func, "distinct" + x, false))
  {
    hide *;
    UpperConcat("distinct", x);
    UpperDistinct();
    OfColumnName(p, func, x, true);
    OfColumnName(p, func, "distinct" + x, false);
    var head := func + "(";
    assert head + "DISTINCT" + Upper(x) == head + "" + ("DISTINCT" + Upper(x));
  }

  // ---------- The shared lists ----------

  /** `fields` starts with the grouping keys; the aggregates follow. */
  datatype AggregateList = AggregateList(names: seq<string>, exprs: seq<Expr>, fields: seq<PlanField>)

  ghost predicate Aligned(s: AggregateList, keyCount: nat) {
    && |s.names| == |s.exprs|
    && |s.fields| == keyCount + |s.exprs|
    && forall i | 0 <= i < |s.names| :: FieldName(s, keyCount + i) == Some(s.names[i])
  }

  function FieldName(s: AggregateList, i: nat): Option<string> {
    if i < |s.fields| then Some(s.fields[i].name) else None
  }

  predicate Extends(s: AggregateList, t: AggregateList) {
    s.names <= t.names && s.exprs <= t.exprs && s.fields <= t.fields
  }

  function FirstIndex<T(==)>(xs: seq<T>, x: T): (r: Option<nat>)
    ensures r.None? <==> x !in xs
    ensures r.Some? ==> r.value < |xs| && xs[r.value] == x && x !in xs[..r.value]
  {
    if xs == [] then None
    else if xs[0] == x then Some(0)
    else
      var r := FirstIndex(xs[1..], x);
      if r.None? then None else Some(r.value + 1)
  }

  function Record(p: Printer, s: AggregateList, name: string, e: Expr): AggregateList {
    AggregateList(s.names + [name], s.exprs + [e], s.fields + [PlanField(name, p.typeOf(e), true, None)])
  }

  function RecordIfNew(p: Printer, s: AggregateList, name: string, e: Expr): AggregateList {
    if name in s.names then s else Record(p, s, name, e)
  }

  // ---------- Rewriting one expression ----------

  datatype Rewritten = Rewritten(list: AggregateList, expr: Expr)

  datatype RewrittenAll = RewrittenAll(list: AggregateList, exprs: seq<Expr>)

  /** The forms whose sub-expressions are rewritten. */
  predicate Descended(e: Expr) {
    || e.Binary? || e.Unary? || e.Scalar? || e.Cast? || e.Case? || e.Alias? || e.Window? || e.IsNull?
    || e.Between? || e.InList? || e.Like? || e.AggregateWindow? || e.ArrayAccess?
  }

  function KeyColumn(s: AggregateList, i: nat): Expr {
    if i < |s.fields| then Column(s.fields[i].table, s.fields[i].name, Some(i)) else Column(None, "", Some(i))
  }

  function Rewrite(p: Printer, keys: seq<Expr>, s: AggregateList, e: Expr): Rewritten
    decreases e, 1, 0
  {
    var k := FirstIndex(keys, e);
    if k.Some? then Rewritten(s, KeyColumn(s, k.value))
    else if e.Aggregate? then
      var name := CanonicalName(p, e);
      var i := FirstIndex(s.names, name);
      if i.Some? then Rewritten(s, Column(None, name, Some(|keys| + i.value)))
      else Rewritten(Record(p, s, name, e), Column(None, name, Some(|keys| + |s.exprs|)))
    else if Descended(e) then
      ChildrenBelow(e);
      var r := RewriteAll(p, keys, s, Children(e), e);
      Rewritten(r.list, WithChildren(e, r.exprs))
    else Rewritten(s, e)
  }

  function RewriteAll(p: Printer, keys: seq<Expr>, s: AggregateList, es: seq<Expr>, ghost parent: Expr): (r: RewrittenAll)
    requires Below(es, parent)
    ensures |r.exprs| == |es|
    decreases parent, 0, |es|
  {
    if es == [] then RewrittenAll(s, [])
    else
      var n := |es| - 1;
      var front := RewriteAll(p, keys, s, es[..n], parent);
      var last := Rewrite(p, keys, front.list, es[n]);
      RewrittenAll(last.list, front.exprs + [last.expr])
  }

  lemma {:induction false} RewriteGrows(p: Printer, keys: seq<Expr>, s: AggregateList, e: Expr)
    ensures var t := Rewrite(p, keys, s, e).list; Extends(s, t) && (Aligned(s, |keys|) ==> Aligned(t, |keys|))
    decreases e, 1, 0
  {
    if FirstIndex(keys, e).None? && !e.Aggregate? && Descended(e) {
      ChildrenBelow(e);
      RewriteAllGrows(p, keys, s, Children(e), e);
    }
  }

  lemma {:induction false} RewriteAllGrows(p: Printer, keys: seq<Expr>, s: AggregateList, es: seq<Expr>, parent: Expr)
    requires Below(es, parent)
    ensures var t := RewriteAll(p, keys, s, es, parent).list; Extends(s, t) && (Aligned(s, |keys|) ==> Aligned(t, |keys|))
    decreases parent, 0, |es|
  {
    if es != [] {
      var n := |es| - 1;
      RewriteAllGrows(p, keys, s, es[..n], parent);
      RewriteGrows(p, keys, RewriteAll(p, keys, s, es[..n], parent).list, es[n]);
    }
  }

  // ---------- What the rewritten expression means ----------

  function GroupEnv(env: Env, agg: Expr -> Outcome): Env {
    env.(scope := GroupScope(agg))
  }

  /** The row of the grouped table for one group: its key values, then the values of the collected aggregates. */
  ghost predicate GroupRow(env: Env, agg: Expr -> Outcome, keys: seq<Expr>, t: AggregateList, member: Row, keyRow: Row, aggRow: Row) {
    && |keyRow| == |keys| && |aggRow| == |t.exprs|
    && (forall j | 0 <= j < |keys| :: Eval(GroupEnv(env, agg), keys[j], member) == Val(keyRow[j]))
    && (forall i | 0 <= i < |t.exprs| :: agg(t.exprs[i]) == Val(aggRow[i]))
  }

  /** Reads no column, no opaque form and no aggregate. */
  predicate Constant(e: Expr)
    decreases e
  {
    !e.Column? && !e.Opaque? && !e.Aggregate? && forall c | c in Children(e) :: Constant(c)
  }

  /** Every column the expression reads is inside a grouping key or an aggregate the rewrite reaches. */
  predicate Grouped(e: Expr, keys: seq<Expr>)
    decreases e
  {
    || e in keys
    || e.Aggregate?
    || Constant(e)
    || (!e.Column? && !e.Opaque? && !e.IsDistinctFrom? && !e.Lambda? && forall c | c in Children(e) :: Grouped(c, keys))
  }

  /** Every recorded aggregate with the name of one in the expression has its value. */
  ghost predicate NamesTell(p: Printer, keys: seq<Expr>, agg: Expr -> Outcome, t: AggregateList, e: Expr)
    decreases e
  {
    || e in keys
    || (e.Aggregate? && forall i | 0 <= i < |t.exprs| && i < |t.names| :: t.names[i] == CanonicalName(p, e) ==> agg(t.exprs[i]) == agg(e))
    || (!e.Aggregate? && forall c | c in Children(e) :: NamesTell(p, keys, agg, t, c))
  }

  lemma {:induction false} ConstantAnywhere(env: Env, agg: Expr -> Outcome, e: Expr, row: Row, member: Row)
    requires Constant(e)
    ensures Eval(RowEnv(env), e, row) == Eval(GroupEnv(env, agg), e, member)
    decreases e
  {
    forall i | 0 <= i < |Children(e)|
      ensures Eval(RowEnv(env), Children(e)[i], row) == Eval(GroupEnv(env, agg), Children(e)[i], member)
    {
      assert Children(e)[i] in Children(e);
      ConstantAnywhere(env, agg, Children(e)[i], row, member);
    }
    EvalByChildren(RowEnv(env), e, row);
    EvalByChildren(GroupEnv(env, agg), e, member);
    assert EvalAll(RowEnv(env), Children(e), row) == EvalAll(GroupEnv(env, agg), Children(e), member);
  }

  lemma IndexedValue(env: Env, table: Option<string>, name: string, i: nat, row: Row)
    requires i < |row|
    ensures Eval(RowEnv(env), Column(table, name, Some(i)), row) == Val(row[i])
  {
  }

  lemma KeyValue(env: Env, agg: Expr -> Outcome, keys: seq<Expr>, s: AggregateList, t: AggregateList, e: Expr, member: Row, keyRow: Row, aggRow: Row)
    requires e in keys && GroupRow(env, agg, keys, t, member, keyRow, aggRow)
    ensures Eval(RowEnv(env), KeyColumn(s, FirstIndex(keys, e).value), keyRow + aggRow) == Eval(GroupEnv(env, agg), e, member)
  {
    var k := FirstIndex(keys, e).value;
    assert (keyRow + aggRow)[k] == keyRow[k];
    IndexedValue(env, KeyColumn(s, k).table, KeyColumn(s, k).name, k, keyRow + aggRow);
  }

  lemma AggregateValue(p: Printer, keys: seq<Expr>, s: AggregateList, e: Expr, t: AggregateList,
                       env: Env, agg: Expr -> Outcome, member: Row, keyRow: Row, aggRow: Row)
    requires e.Aggregate? && e !in keys && Aligned(s, |keys|) && Extends(Rewrite(p, keys, s, e).list, t)
    requires |t.names| == |t.exprs| && GroupRow(env, agg, keys, t, member, keyRow, aggRow) && NamesTell(p, keys, agg, t, e)
    ensures Eval(RowEnv(env), Rewrite(p, keys, s, e).expr, keyRow + aggRow) == Eval(GroupEnv(env, agg), e, member)
  {
    hide *;
    var i := CallColumn(p, keys, s, e, t);
    ReadsColumn(env, agg, keys, t, member, keyRow, aggRow, CanonicalName(p, e), i);
    GroupAggregate(env, agg, e, member);
    TellsAt(p, keys, agg, t, e, i);
  }

  /** Where the column of an aggregate call is, among the aggregates. */
  lemma CallColumn(p: Printer, keys: seq<Expr>, s: AggregateList, e: Expr, t: AggregateList) returns (i: nat)
    requires e.Aggregate? && e !in keys && Aligned(s, |keys|) && Extends(Rewrite(p, keys, s, e).list, t)
    ensures i < |t.exprs| && i < |t.names| && t.names[i] == CanonicalName(p, e)
    ensures Rewrite(p, keys, s, e).expr == Column(None, CanonicalName(p, e), Some(|keys| + i))
    ensures t.exprs[i] == ColumnFor(p, s, e)
  {
    hide CanonicalName;
    var name := CanonicalName(p, e);
    var found := FirstIndex(s.names, name);
    i := if found.Some? then found.value else |s.exprs|;
    assert Rewrite(p, keys, s, e).list.exprs[i] == t.exprs[i] && Rewrite(p, keys, s, e).list.names[i] == t.names[i];
  }

  lemma ReadsColumn(env: Env, agg: Expr -> Outcome, keys: seq<Expr>, t: AggregateList, member: Row, keyRow: Row, aggRow: Row, name: string, i: nat)
    requires GroupRow(env, agg, keys, t, member, keyRow, aggRow) && i < |t.exprs|
    ensures Eval(RowEnv(env), Column(None, name, Some(|keys| + i)), keyRow + aggRow) == agg(t.exprs[i])
  {
    hide Eval;
    assert (keyRow + aggRow)[|keys| + i] == aggRow[i];
    IndexedValue(env, None, name, |keys| + i, keyRow + aggRow);
  }

  lemma GroupAggregate(env: Env, agg: Expr -> Outcome, e: Expr, member: Row)
    requires e.Aggregate?
    ensures Eval(GroupEnv(env, agg), e, member) == agg(e)
  {
  }

  lemma TellsAt(p: Printer, keys: seq<Expr>, agg: Expr -> Outcome, t: AggregateList, e: Expr, i: nat)
    requires e.Aggregate? && e !in keys && NamesTell(p, keys, agg, t, e)
    requires i < |t.exprs| && i < |t.names| && t.names[i] == CanonicalName(p, e)
    ensures agg(t.exprs[i]) == agg(e)
  {
    hide CanonicalName;
  }

  /**
   Aggregate extraction is correct: for an expression grouped by the keys, the rewritten one on
   the row of key and aggregate values has the outcome of the original on the group, and keeps
   it however the shared lists grow afterwards.
   */
  lemma {:induction false} RewriteSound(p: Printer, keys: seq<Expr>, s: AggregateList, e: Expr, t: AggregateList,
                                        env: Env, agg: Expr -> Outcome, member: Row, keyRow: Row, aggRow: Row)
    requires Aligned(s, |keys|) && Extends(Rewrite(p, keys, s, e).list, t) && |t.names| == |t.exprs|
    requires GroupRow(env, agg, keys, t, member, keyRow, aggRow)
    requires Grouped(e, keys) && NamesTell(p, keys, agg, t, e)
    ensures Eval(RowEnv(env), Rewrite(p, keys, s, e).expr, keyRow + aggRow) == Eval(GroupEnv(env, agg), e, member)
    decreases e, 2, 0
  {
    hide Eval, GroupRow, CanonicalName, Constant;
    if e in keys {
      KeyValue(env, agg, keys, s, t, e, member, keyRow, aggRow);
    } else if e.Aggregate? {
      AggregateValue(p, keys, s, e, t, env, agg, member, keyRow, aggRow);
    } else if Descended(e) {
      RewriteFormSound(p, keys, s, e, t, env, agg, member, keyRow, aggRow);
    } else {
      ConstantAnywhere(env, agg, e, keyRow + aggRow, member);
    }
  }

  lemma {:induction false} RewriteFormSound(p: Printer, keys: seq<Expr>, s: AggregateList, e: Expr, t: AggregateList,
                                            env: Env, agg: Expr -> Outcome, member: Row, keyRow: Row, aggRow: Row)
    requires Aligned(s, |keys|) && Extends(Rewrite(p, keys, s, e).list, t) && |t.names| == |t.exprs|
    requires GroupRow(env, agg, keys, t, member, keyRow, aggRow)
    requires Grouped(e, keys) && NamesTell(p, keys, agg, t, e) && Descended(e) && e !in keys
    ensures Eval(RowEnv(env), Rewrite(p, keys, s, e).expr, keyRow + aggRow) == Eval(GroupEnv(env, agg), e, member)
    decreases e, 1, 0
  {
    hide Eval, GroupRow, CanonicalName, WithChildren;
    var cs := Children(e);
    ChildrenBelow(e);
    assert forall c | c in cs :: Grouped(c, keys);
    RewriteAllSound(p, keys, s, cs, e, t, env, agg, member, keyRow, aggRow);
    var r := RewriteAll(p, keys, s, cs, e);
    EvalCongruence(GroupEnv(env, agg), e, member, RowEnv(env), r.exprs, keyRow + aggRow);
  }

  lemma ExtendsTransitive(a: AggregateList, b: AggregateList, c: AggregateList)
    requires Extends(a, b) && Extends(b, c)
    ensures Extends(a, c)
  {
  }

  /** A list of expressions rewritten one after the other, the lists growing between them. */
  lemma {:induction false} RewriteAllSound(p: Printer, keys: seq<Expr>, s: AggregateList, es: seq<Expr>, parent: Expr, t: AggregateList,
                                           env: Env, agg: Expr -> Outcome, member: Row, keyRow: Row, aggRow: Row)
    requires Below(es, parent)
    requires Aligned(s, |keys|) && Extends(RewriteAll(p, keys, s, es, parent).list, t) && |t.names| == |t.exprs|
    requires GroupRow(env, agg, keys, t, member, keyRow, aggRow)
    requires forall c | c in es :: Grouped(c, keys) && NamesTell(p, keys, agg, t, c)
    ensures forall i | 0 <= i < |es| ::
              Eval(RowEnv(env), RewriteAll(p, keys, s, es, parent).exprs[i], keyRow + aggRow) == Eval(GroupEnv(env, agg), es[i], member)
    decreases parent, 0, |es|
  {
    hide Eval, GroupRow, CanonicalName, Grouped, NamesTell, Aligned, Extends, Rewrite;
    if es != [] {
      var n := |es| - 1;
      var front := RewriteAll(p, keys, s, es[..n], parent);
      var last := Rewrite(p, keys, front.list, es[n]);
      RewriteAllGrows(p, keys, s, es[..n], parent);
      RewriteGrows(p, keys, front.list, es[n]);
      ExtendsTransitive(front.list, last.list, t);
      RewriteAllSound(p, keys, s, es[..n], parent, t, env, agg, member, keyRow, aggRow);
      RewriteSound(p, keys, front.list, es[n], t, env, agg, member, keyRow, aggRow);
    }
  }

  // ---------- When it is not ----------

  predicate NoAggregate(e: Expr)
    decreases e
  {
    !e.Aggregate? && forall c | c in Children(e) :: NoAggregate(c)
  }

  /** No aggregate is inside IS DISTINCT FROM or a lambda, except within a grouping key or another aggregate. */
  predicate Reached(e: Expr, keys: seq<Expr>)
    decreases e
  {
    || e in keys
    || e.Aggregate?
    || (if e.IsDistinctFrom? || e.Lambda? then NoAggregate(e) else forall c | c in Children(e) :: Reached(c, keys))
  }

  /** No aggregate call is left behind exactly when each was reached. */
  lemma {:induction false} RewriteComplete(p: Printer, keys: seq<Expr>, s: AggregateList, e: Expr)
    ensures NoAggregate(Rewrite(p, keys, s, e).expr) <==> Reached(e, keys)
    decreases e, 1, 0
  {
    hide CanonicalName;
    if e !in keys && !e.Aggregate? && Descended(e) {
      ChildrenBelow(e);
      RewriteAllComplete(p, keys, s, Children(e), e);
      FormComplete(e, keys, RewriteAll(p, keys, s, Children(e), e).exprs);
    }
  }

  lemma FormComplete(e: Expr, keys: seq<Expr>, r: seq<Expr>)
    requires e !in keys && !e.Aggregate? && Descended(e) && |r| == |Children(e)|
    requires forall i | 0 <= i < |r| :: NoAggregate(r[i]) <==> Reached(Children(e)[i], keys)
    ensures NoAggregate(WithChildren(e, r)) <==> Reached(e, keys)
  {
    var cs := Children(e);
    ChildrenOfWithChildren(e, r);
    StaysNoAggregate(e, r);
    assert !e.IsDistinctFrom? && !e.Lambda?;
    hide WithChildren, Children, Descended;
    assert (forall c | c in cs :: Reached(c, keys)) <==> (forall i | 0 <= i < |cs| :: Reached(cs[i], keys));
    assert (forall c | c in r :: NoAggregate(c)) <==> (forall i | 0 <= i < |r| :: NoAggregate(r[i]));
  }

  lemma StaysNoAggregate(e: Expr, r: seq<Expr>)
    requires |r| == |Children(e)| && !e.Aggregate?
    ensures !WithChildren(e, r).Aggregate?
  {
  }

  lemma {:induction false} RewriteAllComplete(p: Printer, keys: seq<Expr>, s: AggregateList, es: seq<Expr>, parent: Expr)
    requires Below(es, parent)
    ensures forall i | 0 <= i < |es| :: NoAggregate(RewriteAll(p, keys, s, es, parent).exprs[i]) <==> Reached(es[i], keys)
    decreases parent, 0, |es|
  {
    hide NoAggregate, Reached, Rewrite;
    if es != [] {
      var n := |es| - 1;
      RewriteAllComplete(p, keys, s, es[..n], parent);
      RewriteComplete(p, keys, RewriteAll(p, keys, s, es[..n], parent).list, es[n]);
    }
  }

  /** `SUM(x) IS DISTINCT FROM 1`: the call is left in place, where it has no value. */
  lemma DistinctFromMissed(p: Printer, s: AggregateList, env: Env, sum: Expr, one: Expr, row: Row)
    requires sum.Aggregate?
    ensures var e := IsDistinctFrom(sum, one, false);
            && !Reached(e, [])
            && Rewrite(p, [], s, e) == Rewritten(s, e)
            && Eval(RowEnv(env), e, row).Fail?
  {
    var e := IsDistinctFrom(sum, one, false);
    assert Children(e)[0] == sum && sum in Children(e);
    assert !NoAggregate(sum) && !NoAggregate(e);
    hide Eval, CanonicalName;
    EvalByChildren(RowEnv(env), e, row);
    var rs := EvalAll(RowEnv(env), Children(e), row);
    assert rs[0] == Eval(RowEnv(env), sum, row) && rs[0] in rs;
  }

  /** The recorded aggregate whose column an aggregate call gets. */
  function ColumnFor(p: Printer, s: AggregateList, e: Expr): Expr
    requires e.Aggregate?
  {
    var i := FirstIndex(s.names, CanonicalName(p, e));
    if i.Some? && i.value < |s.exprs| then s.exprs[i.value] else e
  }

  /** The column an aggregate call gets holds the value of the call first recorded under its name. */
  lemma CallReads(p: Printer, keys: seq<Expr>, s: AggregateList, e: Expr, t: AggregateList,
                  env: Env, agg: Expr -> Outcome, member: Row, keyRow: Row, aggRow: Row)
    requires e.Aggregate? && e !in keys && Aligned(s, |keys|) && Extends(Rewrite(p, keys, s, e).list, t)
    requires GroupRow(env, agg, keys, t, member, keyRow, aggRow)
    ensures Eval(RowEnv(env), Rewrite(p, keys, s, e).expr, keyRow + aggRow) == agg(ColumnFor(p, s, e))
  {
    hide *;
    var i := CallColumn(p, keys, s, e, t);
    ReadsColumn(env, agg, keys, t, member, keyRow, aggRow, CanonicalName(p, e), i);
  }

  /** On the row of this group the column has the value of the call. */
  ghost predicate ColumnRight(env: Env, agg: Expr -> Outcome, column: Expr, e: Expr, keyRow: Row, aggRow: Row) {
    Eval(RowEnv(env), column, keyRow + aggRow) == agg(e)
  }

  /** Grouping keys with their values in the group. */
  ghost predicate KeyValues(env: Env, keys: seq<Expr>, member: Row, keyRow: Row) {
    |keyRow| == |keys| && forall j | 0 <= j < |keys| :: NoAggregate(keys[j]) && Eval(RowEnv(env), keys[j], member) == Val(keyRow[j])
  }

  /**
   In any group, and whatever aggregates compute there, a rewritten call has the value of the call
   exactly when its name was not recorded before, or the call first recorded under it is the same.
   */
  lemma CallRightIff(p: Printer, keys: seq<Expr>, s: AggregateList, e: Expr, env: Env, member: Row, keyRow: Row)
    requires e.Aggregate? && e !in keys && Aligned(s, |keys|) && KeyValues(env, keys, member, keyRow)
    ensures var r := Rewrite(p, keys, s, e);
            (forall agg: Expr -> Outcome, aggRow: Row | GroupRow(env, agg, keys, r.list, member, keyRow, aggRow) ::
               ColumnRight(env, agg, r.expr, e, keyRow, aggRow))
            <==> CanonicalName(p, e) !in s.names || s.exprs[FirstIndex(s.names, CanonicalName(p, e)).value] == e
  {
    var r := Rewrite(p, keys, s, e);
    var c := ColumnFor(p, s, e);
    assert c == e <==> CanonicalName(p, e) !in s.names || s.exprs[FirstIndex(s.names, CanonicalName(p, e)).value] == e;
    hide Eval, Rewrite, CanonicalName, Aligned, ColumnFor, GroupRow;
    ExtendsReflexive(r.list);
    if c == e {
      forall agg: Expr -> Outcome, aggRow: Row | GroupRow(env, agg, keys, r.list, member, keyRow, aggRow)
        ensures ColumnRight(env, agg, r.expr, e, keyRow, aggRow)
      {
        CallReads(p, keys, s, e, r.list, env, agg, member, keyRow, aggRow);
      }
    } else {
      var agg := Telling(e);
      var aggRow := TellingRow(r.list.exprs, e);
      TellingGroup(env, keys, r.list, e, member, keyRow);
      CallReads(p, keys, s, e, r.list, env, agg, member, keyRow, aggRow);
      assert !ColumnRight(env, agg, r.expr, e, keyRow, aggRow);
    }
  }

  /** Aggregates that compute TRUE for one call and FALSE for every other. */
  function Telling(e: Expr): Expr -> Outcome {
    (x: Expr) => Val(Bool(x == e))
  }

  function TellingRow(es: seq<Expr>, e: Expr): Row {
    seq(|es|, i requires 0 <= i < |es| => Bool(es[i] == e))
  }

  lemma TellingGroup(env: Env, keys: seq<Expr>, t: AggregateList, e: Expr, member: Row, keyRow: Row)
    requires KeyValues(env, keys, member, keyRow)
    ensures GroupRow(env, Telling(e), keys, t, member, keyRow, TellingRow(t.exprs, e))
  {
    hide Eval, NoAggregate;
    forall j | 0 <= j < |keys|
      ensures Eval(GroupEnv(env, Telling(e)), keys[j], member) == Val(keyRow[j])
    {
      NoAggregateSame(env, Telling(e), keys[j], member);
    }
  }

  lemma {:induction false} NoAggregateSame(env: Env, agg: Expr -> Outcome, e: Expr, row: Row)
    requires NoAggregate(e)
    ensures Eval(GroupEnv(env, agg), e, row) == Eval(RowEnv(env), e, row)
    decreases e
  {
    if !e.Column? && !e.Opaque? {
      var cs := Children(e);
      forall i | 0 <= i < |cs|
        ensures Eval(GroupEnv(env, agg), cs[i], row) == Eval(RowEnv(env), cs[i], row)
      {
        assert cs[i] in cs;
        NoAggregateSame(env, agg, cs[i], row);
      }
      EvalByChildren(RowEnv(env), e, row);
      EvalByChildren(GroupEnv(env, agg), e, row);
      assert EvalAll(RowEnv(env), cs, row) == EvalAll(GroupEnv(env, agg), cs, row);
    }
  }

  /** Two calls that differ only in their ORDER BY: once the first is recorded, the second reads its column. */
  lemma OrderByConfused(p: Printer, s: AggregateList, e: Expr, orderBy: seq<SortExpr>)
    requires e.Aggregate? && e.orderBy != orderBy && CanonicalName(p, e) !in s.names && |s.names| == |s.exprs|
    ensures var other := Aggregate(e.func, e.args, e.distinct, e.filter, orderBy, e.limit, e.ignoreNulls);
            ColumnFor(p, Rewrite(p, [], s, e).list, other) == e != other
  {
    NameForgets(p, e, e.filter, orderBy, e.limit, e.ignoreNulls);
    hide CanonicalName;
    assert FirstIndex([], e) == None;
  }

  // ---------- The collectors of HAVING and ORDER BY ----------

  /** Parsed expressions as the two collectors see them; `planned` is `None` where planning the call is an error. */
  datatype Parsed =
    | AggregateCall(text: string, planned: Option<Expr>)
    | ParsedBinary(left: Parsed, right: Parsed)
    | ParsedUnary(operand: Parsed)
    | ParsedNested(operand: Parsed)
    | ParsedCast(operand: Parsed)
    | ParsedOther

  function DropSpaces(s: string): string {
    if s == "" then "" else (if s[0] == ' ' then "" else [s[0]]) + DropSpaces(s[1..])
  }

  /** The name of a call taken from its SQL text. */
  function TextName(text: string): string {
    DropSpaces(Upper(text))
  }

  /** Dropping spaces drops all of them and nothing else. */
  lemma {:induction false} SpacesDropped(a: string)
    ensures ' ' !in DropSpaces(a)
    ensures ' ' !in a ==> DropSpaces(a) == a
  {
    if a != [] {
      SpacesDropped(a[1..]);
      assert a == [a[0]] + a[1..];
    }
  }

  /** Wherever they stand. */
  lemma {:induction false} SpacesDroppedAnywhere(a: string, b: string)
    ensures DropSpaces(a + b) == DropSpaces(a) + DropSpaces(b)
    decreases |a|
  {
    if a == [] {
      assert a + b == b && DropSpaces(a) + DropSpaces(b) == DropSpaces(b);
    } else {
      assert (a + b)[0] == a[0] && (a + b)[1..] == a[1..] + b;
      SpacesDroppedAnywhere(a[1..], b);
      DropStep(a);
      DropStep(a + b);
      hide DropSpaces;
      var first := if a[0] == ' ' then "" else [a[0]];
      assert first + (DropSpaces(a[1..]) + DropSpaces(b)) == first + DropSpaces(a[1..]) + DropSpaces(b);
    }
  }

  lemma DropStep(a: string)
    requires a != []
    ensures DropSpaces(a) == (if a[0] == ' ' then "" else [a[0]]) + DropSpaces(a[1..])
  {
  }

  /** HAVING records a call under its text and does not look below casts; ORDER BY records it under its planned name and does. */
  function Collect(p: Printer, having: bool, s: AggregateList, x: Parsed): Option<AggregateList>
    decreases x
  {
    match x
    case AggregateCall(text, planned) =>
      if having && TextName(text) in s.names then Some(s)
      else if planned.None? then None
      else Some(RecordIfNew(p, s, if having then TextName(text) else CanonicalName(p, planned.value), planned.value))
    case ParsedBinary(l, r) =>
      var front := Collect(p, having, s, l);
      if front.None? then None else Collect(p, having, front.value, r)
    case ParsedUnary(y) => Collect(p, having, s, y)
    case ParsedNested(y) => Collect(p, having, s, y)
    case ParsedCast(y) => if having then Some(s) else Collect(p, having, s, y)
    case ParsedOther => Some(s)
  }

  lemma {:induction false} CollectGrows(p: Printer, having: bool, s: AggregateList, x: Parsed, keyCount: nat)
    requires Collect(p, having, s, x).Some?
    ensures var t := Collect(p, having, s, x).value; Extends(s, t) && (Aligned(s, keyCount) ==> Aligned(t, keyCount))
    decreases x
  {
    hide CanonicalName, TextName;
    match x
    case ParsedBinary(l, r) =>
      CollectGrows(p, having, s, l, keyCount);
      CollectGrows(p, having, Collect(p, having, s, l).value, r, keyCount);
    case ParsedUnary(y) => CollectGrows(p, having, s, y, keyCount);
    case ParsedNested(y) => CollectGrows(p, having, s, y, keyCount);
    case ParsedCast(y) =>
      if !having {
        CollectGrows(p, having, s, y, keyCount);
      }
    case _ =>
  }

  /** The calls looked for, in reading order: HAVING does not look below casts. */
  function CallsIn(having: bool, x: Parsed): (r: seq<Parsed>)
    ensures forall c | c in r :: c.AggregateCall?
    decreases x
  {
    match x
    case AggregateCall(_, _) => [x]
    case ParsedBinary(l, r) => CallsIn(having, l) + CallsIn(having, r)
    case ParsedUnary(y) => CallsIn(having, y)
    case ParsedNested(y) => CallsIn(having, y)
    case ParsedCast(y) => if having then [] else CallsIn(having, y)
    case ParsedOther => []
  }

  /** HAVING names a call by its text, ORDER BY by its planned form. */
  function CallName(p: Printer, having: bool, c: Parsed): string
    requires c.AggregateCall?
  {
    if having then TextName(c.text) else if c.planned.Some? then CanonicalName(p, c.planned.value) else ""
  }

  /** The names of the calls are there, and each that was not is there once, with the first call that has it. */
  ghost predicate Collects(p: Printer, having: bool, s: AggregateList, t: AggregateList, calls: seq<Parsed>)
    requires forall c | c in calls :: c.AggregateCall?
  {
    && |t.names| == |t.exprs| && s.names <= t.names && s.exprs <= t.exprs
    && (forall n :: n in t.names <==> n in s.names || Called(p, having, calls, n))
    && forall k | |s.names| <= k < |t.names| ::
         && t.names[k] !in t.names[..k]
         && IsFirstCall(p, having, calls, t.names[k], t.exprs[k])
  }

  predicate IsFirstCall(p: Printer, having: bool, calls: seq<Parsed>, name: string, e: Expr)
    requires forall c | c in calls :: c.AggregateCall?
  {
    exists i :: 0 <= i < |calls| && FirstCalled(p, having, calls, i, name, e)
  }

  predicate Called(p: Printer, having: bool, calls: seq<Parsed>, n: string)
    requires forall c | c in calls :: c.AggregateCall?
  {
    exists i :: 0 <= i < |calls| && CallName(p, having, calls[i]) == n
  }

  predicate FirstCalled(p: Printer, having: bool, calls: seq<Parsed>, i: nat, name: string, e: Expr)
    requires forall c | c in calls :: c.AggregateCall?
    requires i < |calls|
  {
    && CallName(p, having, calls[i]) == name && calls[i].planned == Some(e)
    && forall j | 0 <= j < i :: CallName(p, having, calls[j]) != name
  }

  lemma CollectsConcat(p: Printer, having: bool, s: AggregateList, t: AggregateList, u: AggregateList, a: seq<Parsed>, b: seq<Parsed>)
    requires (forall c | c in a :: c.AggregateCall?) && forall c | c in b :: c.AggregateCall?
    requires |s.names| == |s.exprs| && Collects(p, having, s, t, a) && Collects(p, having, t, u, b)
    ensures Collects(p, having, s, u, a + b)
  {
    hide CallName, IsFirstCall, Called;
    forall n
      ensures n in u.names <==> n in s.names || Called(p, having, a + b, n)
    {
      CalledConcat(p, having, a, b, n);
    }
    forall k | |s.names| <= k < |u.names|
      ensures u.names[k] !in u.names[..k]
      ensures IsFirstCall(p, having, a + b, u.names[k], u.exprs[k])
    {
      NewConcat(p, having, s, t, u, a, b, k);
    }
  }

  lemma NewConcat(p: Printer, having: bool, s: AggregateList, t: AggregateList, u: AggregateList, a: seq<Parsed>, b: seq<Parsed>, k: nat)
    requires (forall c | c in a :: c.AggregateCall?) && forall c | c in b :: c.AggregateCall?
    requires |s.names| == |s.exprs| && Collects(p, having, s, t, a) && Collects(p, having, t, u, b)
    requires |s.names| <= k < |u.names|
    ensures u.names[k] !in u.names[..k]
    ensures IsFirstCall(p, having, a + b, u.names[k], u.exprs[k])
  {
    hide CallName, FirstCalled, Called;
    var n, e := u.names[k], u.exprs[k];
    if k < |t.names| {
      assert n == t.names[k] && e == t.exprs[k] && u.names[..k] == t.names[..k];
      var i :| 0 <= i < |a| && FirstCalled(p, having, a, i, n, e);
      FirstConcat(p, having, a, b, i, n, e);
    } else {
      var i :| 0 <= i < |b| && FirstCalled(p, having, b, i, n, e);
      assert forall m | m in t.names :: m in u.names[..k];
      assert !Called(p, having, a, n);
      FirstAfter(p, having, a, b, i, n, e);
    }
  }

  lemma CalledConcat(p: Printer, having: bool, a: seq<Parsed>, b: seq<Parsed>, n: string)
    requires (forall c | c in a :: c.AggregateCall?) && forall c | c in b :: c.AggregateCall?
    ensures Called(p, having, a + b, n) <==> Called(p, having, a, n) || Called(p, having, b, n)
  {
    hide CallName;
    if i :| 0 <= i < |a| && CallName(p, having, a[i]) == n {
      assert (a + b)[i] == a[i];
    }
    if i :| 0 <= i < |b| && CallName(p, having, b[i]) == n {
      assert (a + b)[|a| + i] == b[i];
    }
  }

  lemma FirstConcat(p: Printer, having: bool, a: seq<Parsed>, b: seq<Parsed>, i: nat, n: string, e: Expr)
    requires (forall c | c in a :: c.AggregateCall?) && (forall c | c in b :: c.AggregateCall?) && i < |a|
    requires FirstCalled(p, having, a, i, n, e)
    ensures FirstCalled(p, having, a + b, i, n, e)
  {
    hide CallName;
  }

  lemma FirstAfter(p: Printer, having: bool, a: seq<Parsed>, b: seq<Parsed>, i: nat, n: string, e: Expr)
    requires (forall c | c in a :: c.AggregateCall?) && (forall c | c in b :: c.AggregateCall?) && i < |b|
    requires FirstCalled(p, having, b, i, n, e) && !Called(p, having, a, n)
    ensures FirstCalled(p, having, a + b, |a| + i, n, e)
  {
    hide CallName;
  }

  lemma CollectsNothing(p: Printer, having: bool, s: AggregateList)
    requires |s.names| == |s.exprs|
    ensures Collects(p, having, s, s, [])
  {
  }

  lemma CollectsOne(p: Printer, having: bool, s: AggregateList, c: Parsed)
    requires c.AggregateCall? && |s.names| == |s.exprs| && Collect(p, having, s, c).Some?
    ensures Collects(p, having, s, Collect(p, having, s, c).value, [c])
  {
    hide CanonicalName, TextName;
    var t := Collect(p, having, s, c).value;
    assert [c][0] == c;
    if t != s {
      var k := |s.names|;
      assert t.names[..k] == s.names && FirstCalled(p, having, [c], 0, t.names[k], t.exprs[k]);
    }
  }

  /**
   Collecting records the name of every call of HAVING or ORDER BY and no other, each new one once, with the
   planned form of the first call that has it.
   */
  lemma {:induction false} CollectMeans(p: Printer, having: bool, s: AggregateList, x: Parsed)
    requires |s.names| == |s.exprs| && Collect(p, having, s, x).Some?
    ensures Collects(p, having, s, Collect(p, having, s, x).value, CallsIn(having, x))
    decreases x
  {
    hide Collects, CanonicalName, TextName;
    CollectsNothing(p, having, s);
    match x
    case AggregateCall(_, _) => CollectsOne(p, having, s, x);
    case ParsedBinary(l, r) =>
      var t := Collect(p, having, s, l).value;
      CollectMeans(p, having, s, l);
      CollectedAlike(p, having, s, t, CallsIn(having, l));
      CollectMeans(p, having, t, r);
      CollectsConcat(p, having, s, t, Collect(p, having, t, r).value, CallsIn(having, l), CallsIn(having, r));
    case ParsedUnary(y) => CollectMeans(p, having, s, y);
    case ParsedNested(y) => CollectMeans(p, having, s, y);
    case ParsedCast(y) =>
      if !having {
        CollectMeans(p, having, s, y);
      }
    case ParsedOther =>
  }

  lemma CollectedAlike(p: Printer, having: bool, s: AggregateList, t: AggregateList, calls: seq<Parsed>)
    requires forall c | c in calls :: c.AggregateCall?
    requires Collects(p, having, s, t, calls)
    ensures |t.names| == |t.exprs|
  {
  }

  /** A call that cannot be planned, in HAVING one whose name is not recorded by then. */
  predicate Stuck(having: bool, names: seq<string>, calls: seq<Parsed>, i: nat)
    requires i < |calls| && forall c | c in calls :: c.AggregateCall?
  {
    && calls[i].planned.None?
    && (having ==> && TextName(calls[i].text) !in names
                   && forall j | 0 <= j < i :: TextName(calls[j].text) != TextName(calls[i].text))
  }

  predicate AnyStuck(having: bool, names: seq<string>, calls: seq<Parsed>)
    requires forall c | c in calls :: c.AggregateCall?
  {
    exists i :: 0 <= i < |calls| && Stuck(having, names, calls, i)
  }

  /** Collecting fails exactly at such a call. */
  lemma {:induction false} CollectFailsIff(p: Printer, having: bool, s: AggregateList, x: Parsed)
    requires |s.names| == |s.exprs|
    ensures Collect(p, having, s, x).None? <==> AnyStuck(having, s.names, CallsIn(having, x))
    decreases x
  {
    hide CanonicalName, TextName, AnyStuck, Collects;
    match x
    case AggregateCall(_, _) => StuckOne(p, having, s, x);
    case ParsedBinary(l, r) =>
      CollectFailsIff(p, having, s, l);
      if Collect(p, having, s, l).Some? {
        var t := Collect(p, having, s, l).value;
        CollectMeans(p, having, s, l);
        CollectedAlike(p, having, s, t, CallsIn(having, l));
        CollectFailsIff(p, having, t, r);
        StuckLater(p, having, s, t, CallsIn(having, l), CallsIn(having, r));
      } else {
        StuckEarly(having, s.names, CallsIn(having, l), CallsIn(having, r));
      }
    case ParsedUnary(y) => CollectFailsIff(p, having, s, y);
    case ParsedNested(y) => CollectFailsIff(p, having, s, y);
    case ParsedCast(y) =>
      if having {
        NoneStuck(having, s.names);
      } else {
        CollectFailsIff(p, having, s, y);
      }
    case ParsedOther => NoneStuck(having, s.names);
  }

  lemma NoneStuck(having: bool, names: seq<string>)
    ensures !AnyStuck(having, names, [])
  {
  }

  lemma StuckOne(p: Printer, having: bool, s: AggregateList, c: Parsed)
    requires c.AggregateCall?
    ensures Collect(p, having, s, c).None? <==> AnyStuck(having, s.names, [c])
  {
    hide CanonicalName, TextName;
    assert [c][0] == c;
    assert Collect(p, having, s, c).None? <==> Stuck(having, s.names, [c], 0);
  }

  lemma StuckSame(having: bool, names: seq<string>, a: seq<Parsed>, b: seq<Parsed>, i: nat)
    requires (forall c | c in a :: c.AggregateCall?) && (forall c | c in b :: c.AggregateCall?) && i < |a|
    ensures Stuck(having, names, a + b, i) <==> Stuck(having, names, a, i)
  {
    hide TextName;
    assert forall j | 0 <= j <= i :: (a + b)[j] == a[j];
  }

  lemma StuckEarly(having: bool, names: seq<string>, a: seq<Parsed>, b: seq<Parsed>)
    requires (forall c | c in a :: c.AggregateCall?) && forall c | c in b :: c.AggregateCall?
    requires AnyStuck(having, names, a)
    ensures AnyStuck(having, names, a + b)
  {
    hide Stuck;
    var i :| 0 <= i < |a| && Stuck(having, names, a, i);
    StuckSame(having, names, a, b, i);
  }

  lemma StuckLater(p: Printer, having: bool, s: AggregateList, t: AggregateList, a: seq<Parsed>, b: seq<Parsed>)
    requires (forall c | c in a :: c.AggregateCall?) && forall c | c in b :: c.AggregateCall?
    requires Collects(p, having, s, t, a) && !AnyStuck(having, s.names, a)
    ensures AnyStuck(having, s.names, a + b) <==> AnyStuck(having, t.names, b)
  {
    hide Stuck, Collects;
    if i :| 0 <= i < |a + b| && Stuck(having, s.names, a + b, i) {
      if i < |a| {
        StuckSame(having, s.names, a, b, i);
      } else {
        StuckShift(p, having, s, t, a, b, i - |a|);
      }
    }
    if i :| 0 <= i < |b| && Stuck(having, t.names, b, i) {
      StuckShift(p, having, s, t, a, b, i);
    }
  }

  lemma StuckShift(p: Printer, having: bool, s: AggregateList, t: AggregateList, a: seq<Parsed>, b: seq<Parsed>, i: nat)
    requires (forall c | c in a :: c.AggregateCall?) && (forall c | c in b :: c.AggregateCall?) && i < |b|
    requires Collects(p, having, s, t, a)
    ensures Stuck(having, s.names, a + b, |a| + i) <==> Stuck(having, t.names, b, i)
  {
    hide TextName, FirstCalled;
    assert (a + b)[|a| + i] == b[i];
    if having {
      var n := TextName(b[i].text);
      assert Called(p, having, a, n) <==> exists j :: 0 <= j < |a| && TextName(a[j].text) == n;
      assert forall j | 0 <= j < |a| :: (a + b)[j] == a[j];
      assert forall j | 0 <= j < i :: (a + b)[|a| + j] == b[j];
      assert forall j | |a| <= j < |a| + i :: (a + b)[j] == b[j - |a|];
    }
  }

  // ---------- A whole SELECT ----------

  /** The uses of the shared lists while one SELECT is planned. */
  datatype Use =
    | PureItem(text: string, planned: Expr)
    | MixedItem(expr: Expr)
    | Having(having: Parsed)
    | OrderBy(order: Parsed)

  function Apply(p: Printer, keys: seq<Expr>, s: AggregateList, use: Use): Option<AggregateList> {
    match use
    case PureItem(text, planned) => Some(Record(p, s, TextName(text), planned))
    case MixedItem(e) => Some(Rewrite(p, keys, s, e).list)
    case Having(x) => Collect(p, true, s, x)
    case OrderBy(x) => Collect(p, false, s, x)
  }

  function Run(p: Printer, keys: seq<Expr>, s: AggregateList, uses: seq<Use>): Option<AggregateList>
    decreases |uses|
  {
    if uses == [] then Some(s)
    else
      var t := Apply(p, keys, s, uses[0]);
      if t.None? then None else Run(p, keys, t.value, uses[1..])
  }

  lemma ApplyGrows(p: Printer, keys: seq<Expr>, s: AggregateList, use: Use)
    requires Apply(p, keys, s, use).Some?
    ensures var t := Apply(p, keys, s, use).value; Extends(s, t) && (Aligned(s, |keys|) ==> Aligned(t, |keys|))
  {
    hide TextName, Rewrite, Collect;
    match use
    case PureItem(_, _) =>
    case MixedItem(e) => RewriteGrows(p, keys, s, e);
    case Having(x) => CollectGrows(p, true, s, x, |keys|);
    case OrderBy(x) => CollectGrows(p, false, s, x, |keys|);
  }

  /** Over every run the lists only grow, and stay aligned: as many names as aggregates, each the name of its field after the keys. */
  lemma {:induction false} RunGrows(p: Printer, keys: seq<Expr>, s: AggregateList, uses: seq<Use>)
    requires Run(p, keys, s, uses).Some?
    ensures var t := Run(p, keys, s, uses).value; Extends(s, t) && (Aligned(s, |keys|) ==> Aligned(t, |keys|))
    decreases |uses|
  {
    hide Apply, Aligned, Extends;
    if uses != [] {
      var t := Apply(p, keys, s, uses[0]).value;
      ApplyGrows(p, keys, s, uses[0]);
      RunGrows(p, keys, t, uses[1..]);
      ExtendsTransitive(s, t, Run(p, keys, s, uses).value);
    } else {
      ExtendsReflexive(s);
    }
  }

  lemma ExtendsReflexive(s: AggregateList)
    ensures Extends(s, s)
  {
  }

  /** An item rewritten in the middle of planning a SELECT is right on the rows of the finished grouped table. */
  lemma SelectSound(p: Printer, keys: seq<Expr>, s: AggregateList, e: Expr, later: seq<Use>,
                    env: Env, agg: Expr -> Outcome, member: Row, keyRow: Row, aggRow: Row)
    requires Aligned(s, |keys|) && Run(p, keys, Rewrite(p, keys, s, e).list, later).Some?
    requires var t := Run(p, keys, Rewrite(p, keys, s, e).list, later).value;
             && GroupRow(env, agg, keys, t, member, keyRow, aggRow)
             && Grouped(e, keys) && NamesTell(p, keys, agg, t, e)
    ensures Eval(RowEnv(env), Rewrite(p, keys, s, e).expr, keyRow + aggRow) == Eval(GroupEnv(env, agg), e, member)
  {
    hide *;
    var t := Run(p, keys, Rewrite(p, keys, s, e).list, later).value;
    RewriteGrows(p, keys, s, e);
    RunGrows(p, keys, Rewrite(p, keys, s, e).list, later);
    AlignedLengths(t, |keys|);
    RewriteSound(p, keys, s, e, t, env, agg, member, keyRow, aggRow);
  }

  /** An item that is a call by itself has its own column, after those recorded before it, whatever its text and whatever is planned later. */
  lemma PureItemRight(p: Printer, keys: seq<Expr>, s: AggregateList, text: string, planned: Expr, later: seq<Use>,
                      env: Env, agg: Expr -> Outcome, member: Row, keyRow: Row, aggRow: Row)
    requires Aligned(s, |keys|) && Apply(p, keys, s, PureItem(text, planned)).Some?
    requires var r := Run(p, keys, Apply(p, keys, s, PureItem(text, planned)).value, later);
             r.Some? && GroupRow(env, agg, keys, r.value, member, keyRow, aggRow)
    ensures ColumnRight(env, agg, Column(None, TextName(text), Some(|keys| + |s.exprs|)), planned, keyRow, aggRow)
  {
    hide TextName, Eval, GroupRow;
    var own := Apply(p, keys, s, PureItem(text, planned)).value;
    var t := Run(p, keys, own, later).value;
    RunGrows(p, keys, own, later);
    assert own.exprs[|s.exprs|] == planned == t.exprs[|s.exprs|];
    ReadsColumn(env, agg, keys, t, member, keyRow, aggRow, TextName(text), |s.exprs|);
  }

  lemma AlignedLengths(t: AggregateList, keyCount: nat)
    requires Aligned(t, keyCount)
    ensures |t.names| == |t.exprs|
  {
  }

  // ---------- The planner's mutable lists ----------

  /** The three vectors one SELECT shares, and the operations that grow them. */
  class Collector {
    const printer: Printer
    const keys: seq<Expr>
    var names: seq<string>
    var exprs: seq<Expr>
    var fields: seq<PlanField>

    constructor (p: Printer, groupBy: seq<Expr>, keyFields: seq<PlanField>)
      requires |keyFields| == |groupBy|
      ensures printer == p && keys == groupBy
      ensures List() == AggregateList([], [], keyFields) && Aligned(List(), |keys|)
    {
      printer, keys, names, exprs, fields := p, groupBy, [], [], keyFields;
    }

    function List(): AggregateList
      reads this
    {
      AggregateList(names, exprs, fields)
    }

    method Push(name: string, e: Expr)
      modifies this
      ensures List() == Record(printer, old(List()), name, e)
    {
      fields := fields + [PlanField(name, printer.typeOf(e), true, None)];
      exprs := exprs + [e];
      names := names + [name];
    }

    method Replace(e: Expr) returns (r: Expr)
      requires Aligned(List(), |keys|)
      modifies this
      ensures Rewritten(List(), r) == Rewrite(printer, keys, old(List()), e)
      ensures Aligned(List(), |keys|) && Extends(old(List()), List())
      decreases e, 1
    {
      hide CanonicalName, WithChildren, Children;
      RewriteGrows(printer, keys, List(), e);
      var k := FirstIndex(keys, e);
      if k.Some? {
        return KeyColumn(List(), k.value);
      }
      if e.Aggregate? {
        var canonical := CanonicalName(printer, e);
        var i := FirstIndex(names, canonical);
        if i.Some? {
          return Column(None, names[i.value], Some(|keys| + i.value));
        }
        Push(canonical, e);
        return Column(None, canonical, Some(|keys| + |exprs| - 1));
      }
      if !Descended(e) {
        return e;
      }
      ChildrenBelow(e);
      var done := ReplaceAll(Children(e), e);
      return WithChildren(e, done);
    }

    method ReplaceAll(es: seq<Expr>, ghost parent: Expr) returns (done: seq<Expr>)
      requires Aligned(List(), |keys|) && Below(es, parent)
      modifies this
      ensures RewrittenAll(List(), done) == RewriteAll(printer, keys, old(List()), es, parent)
      ensures Aligned(List(), |keys|)
      decreases parent, 0
    {
      hide Aligned, Rewrite, CanonicalName;
      done := [];
      for i := 0 to |es|
        invariant Aligned(List(), |keys|)
        invariant RewrittenAll(List(), done) == RewriteAll(printer, keys, old(List()), es[..i], parent)
      {
        assert es[..i + 1][..i] == es[..i];
        var c := Replace(es[i]);
        done := done + [c];
      }
      assert es[..|es|] == es;
    }

    /** The rewritten expression, and the names this call added. */
    method ExtractAggregates(e: Expr) returns (r: Expr, extracted: seq<string>)
      requires Aligned(List(), |keys|)
      modifies this
      ensures Rewritten(List(), r) == Rewrite(printer, keys, old(List()), e)
      ensures Aligned(List(), |keys|) && names == old(names) + extracted
    {
      var before := |names|;
      r := Replace(e);
      extracted := names[before..];
    }

    method CollectParsed(having: bool, x: Parsed) returns (ok: bool)
      modifies this
      ensures ok == Collect(printer, having, old(List()), x).Some?
      ensures ok ==> List() == Collect(printer, having, old(List()), x).value
      decreases x
    {
      match x {
        case AggregateCall(text, planned) =>
          if having && TextName(text) in names {
            return true;
          }
          if planned.None? {
            return false;
          }
          var name := if having then TextName(text) else CanonicalName(printer, planned.value);
          if name !in names {
            Push(name, planned.value);
          }
          ok := true;
        case ParsedBinary(l, r) =>
          ok := CollectParsed(having, l);
          if ok {
            ok := CollectParsed(having, r);
          }
        case ParsedUnary(y) => ok := CollectParsed(having, y);
        case ParsedNested(y) => ok := CollectParsed(having, y);
        case ParsedCast(y) =>
          ok := true;
          if !having {
            ok := CollectParsed(having, y);
          }
        case ParsedOther => ok := true;
      }
    }
  }
}
