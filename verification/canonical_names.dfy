/**
 Reading the canonical names of `crates/parser/src/planner.rs` back: over named columns, plain numbers and
 operators printed as symbols a name tells its expression, so aggregates over them never share a column
 by mistake.
 */
module CanonicalNames {
  import opened Wrappers
  import opened Names
  import opened Ir
  import opened Evaluator
  import opened AggregateRewrite

  // ---------- Operators ----------

  /** On the same operands two names agree exactly when the operators do. */
  lemma OperatorTells(p: Printer, l: Expr, r: Expr, op: BinaryOp, other: BinaryOp)
    ensures CanonicalName(p, Binary(l, op, r)) == CanonicalName(p, Binary(l, other, r)) <==> op == other
  {
    var x, y := CanonicalName(p, l), CanonicalName(p, r);
    BinaryName(p, l, op, r);
    BinaryName(p, l, other, r);
    OperatorTexts(op, other);
    hide CanonicalName, OpText;
    SamePrefix("(" + x, OpText(op) + (y + ")"), OpText(other) + (y + ")"));
    SameSuffix(OpText(op), OpText(other), y + ")");
  }

  lemma BinaryName(p: Printer, l: Expr, op: BinaryOp, r: Expr)
    ensures CanonicalName(p, Binary(l, op, r)) == "(" + CanonicalName(p, l) + (OpText(op) + (CanonicalName(p, r) + ")"))
  {
    hide OpText, UnaryText;
    var x, y := CanonicalName(p, l), CanonicalName(p, r);
    assert CanonicalName(p, Binary(l, op, r)) == "(" + x + OpText(op) + y + ")";
  }

  lemma OperatorTexts(op: BinaryOp, other: BinaryOp)
    ensures OpText(op) == OpText(other) <==> op == other
  {
    assert |OpText(op)| == |OpText(other)| && op != other ==> OpText(op)[0] != OpText(other)[0] || (|OpText(op)| == 2 && OpText(op)[1] != OpText(other)[1]);
  }

  lemma UnaryTells(p: Printer, x: Expr, op: UnaryOp, other: UnaryOp)
    ensures CanonicalName(p, Unary(op, x)) == CanonicalName(p, Unary(other, x)) <==> op == other
  {
    UnaryTexts(op, other);
    hide OpText, UnaryText;
    SameSuffix(UnaryText(op), UnaryText(other), CanonicalName(p, x));
  }

  lemma UnaryTexts(op: UnaryOp, other: UnaryOp)
    ensures UnaryText(op)[0] == UnaryText(other)[0] <==> op == other
  {
  }

  /** On the same operand casts agree in name exactly when they agree on failing and on the printed type, case aside. */
  lemma CastTells(p: Printer, x: Expr, t: DataType, safe: bool, u: DataType, other: bool)
    ensures CanonicalName(p, Cast(x, t, safe)) == CanonicalName(p, Cast(x, u, other))
            <==> safe == other && Upper(p.dataType(t)) == Upper(p.dataType(u))
  {
    CastName(p, x, t, safe);
    CastName(p, x, u, other);
    hide CanonicalName, Upper;
    var n, a, b := CanonicalName(p, x), Upper(p.dataType(t)), Upper(p.dataType(u));
    var head := if safe then "SAFE_CAST(" else "CAST(";
    assert CanonicalName(p, Cast(x, t, safe))[0] == if safe then 'S' else 'C';
    assert CanonicalName(p, Cast(x, u, other))[0] == if other then 'S' else 'C';
    SamePrefix(head + n + " AS ", a + ")", b + ")");
    SameSuffix(a, b, ")");
  }

  lemma CastName(p: Printer, x: Expr, t: DataType, safe: bool)
    ensures CanonicalName(p, Cast(x, t, safe))
            == (if safe then "SAFE_CAST(" else "CAST(") + CanonicalName(p, x) + " AS " + (Upper(p.dataType(t)) + ")")
  {
    hide OpText, UnaryText, Upper;
  }

  // ---------- Names that can be read back ----------

  predicate IsDigit(c: char) {
    '0' <= c <= '9'
  }

  predicate WordChar(c: char) {
    'A' <= c <= 'Z' || 'a' <= c <= 'z' || IsDigit(c) || c == '_'
  }

  predicate Word(s: string) {
    forall c | c in s :: WordChar(c)
  }

  predicate TokenChar(c: char) {
    WordChar(c) || c == '.'
  }

  predicate Token(s: string) {
    forall c | c in s :: TokenChar(c)
  }

  /** Letters, digits and underscores, not starting with a digit nor, in either case, with the word DISTINCT. */
  predicate Identifier(s: string) {
    s != "" && Word(s) && !IsDigit(s[0]) && !("DISTINCT" <= Upper(s))
  }

  /** Digits and dots, starting with a digit. */
  predicate Number(s: string) {
    s != "" && IsDigit(s[0]) && forall c | c in s :: IsDigit(c) || c == '.'
  }

  /** Columns and functions with such names, numbers, and operators printed as symbols, or NOT. */
  predicate Readable(p: Printer, e: Expr)
    decreases e
  {
    match e
    case Column(table, name, _) => Identifier(name) && (table.Some? ==> Identifier(table.value))
    case Literal(v) => Number(p.literal(v))
    case Scalar(fn, args) => Identifier(p.scalar(fn)) && forall x | x in args :: Readable(p, x)
    case Unary(_, x) => Readable(p, x)
    case Binary(l, op, r) => !op.And? && !op.Or? && Readable(p, l) && Readable(p, r)
    case Alias(x, _) => Readable(p, x)
    case _ => false
  }

  predicate SameColumn(c: Expr, d: Expr)
    requires c.Column? && d.Column?
  {
    && Upper(c.name) == Upper(d.name)
    && c.table.Some? == d.table.Some?
    && (c.table.Some? ==> Upper(c.table.value) == Upper(d.table.value))
  }

  /** The same expression, the case of names, places of columns and aliases aside. */
  predicate Same(p: Printer, e: Expr, f: Expr)
    decreases e, f
  {
    if e.Alias? then Same(p, e.operand, f)
    else if f.Alias? then Same(p, e, f.operand)
    else
      || (e.Column? && f.Column? && SameColumn(e, f))
      || (e.Literal? && f.Literal? && p.literal(e.value) == p.literal(f.value))
      || (e.Scalar? && f.Scalar? && Upper(p.scalar(e.fn)) == Upper(p.scalar(f.fn)) && |e.args| == |f.args|
          && forall i | 0 <= i < |e.args| :: Same(p, e.args[i], f.args[i]))
      || (e.Unary? && f.Unary? && e.uop == f.uop && Same(p, e.operand, f.operand))
      || (e.Binary? && f.Binary? && e.op == f.op && Same(p, e.left, f.left) && Same(p, e.right, f.right))
  }

  lemma {:induction false} SameNames(p: Printer, e: Expr, f: Expr)
    requires Readable(p, e) && Readable(p, f) && Same(p, e, f)
    ensures CanonicalName(p, e) == CanonicalName(p, f)
    decreases e, f
  {
    hide Upper, OpText, UnaryText;
    if e.Alias? {
      SameNames(p, e.operand, f);
    } else if f.Alias? {
      SameNames(p, e, f.operand);
    } else if e.Unary? {
      SameNames(p, e.operand, f.operand);
    } else if e.Binary? {
      SameNames(p, e.left, f.left);
      SameNames(p, e.right, f.right);
    } else if e.Scalar? {
      forall i | 0 <= i < |e.args|
        ensures CanonicalName(p, e.args[i]) == CanonicalName(p, f.args[i])
      {
        assert e.args[i] in e.args && f.args[i] in f.args;
        SameNames(p, e.args[i], f.args[i]);
      }
      SameScalars(p, e, f);
    }
  }

  lemma SameScalars(p: Printer, e: Expr, f: Expr)
    requires e.Scalar? && f.Scalar? && Readable(p, e) && Readable(p, f)
    requires Upper(p.scalar(e.fn)) == Upper(p.scalar(f.fn)) && |e.args| == |f.args|
    requires forall i | 0 <= i < |e.args| :: CanonicalName(p, e.args[i]) == CanonicalName(p, f.args[i])
    ensures CanonicalName(p, e) == CanonicalName(p, f)
  {
    hide *;
    ScalarName(p, e);
    ScalarName(p, f);
    assert PrintedAll(p, e.args) == PrintedAll(p, f.args);
  }

  // ---------- Function calls are printed in upper case ----------

  lemma {:induction false} PrintedUpper(p: Printer, e: Expr)
    requires Readable(p, e)
    ensures Upper(CanonicalName(p, e)) == CanonicalName(p, e)
    decreases e
  {
    match e
    case Column(table, name, _) =>
      UpperIdempotent(name);
      if table.Some? {
        UpperIdempotent(table.value);
        UpperConcat(Upper(table.value), "." + Upper(name));
        UpperConcat(".", Upper(name));
        assert Upper(table.value) + "." + Upper(name) == Upper(table.value) + ("." + Upper(name));
      }
    case Literal(v) =>
      forall i | 0 <= i < |p.literal(v)|
        ensures Upper(p.literal(v))[i] == p.literal(v)[i]
      {
        assert p.literal(v)[i] in p.literal(v);
      }
    case Scalar(fn, args) =>
      UpperIdempotent(p.scalar(fn) + "(" + Join(PrintedAll(p, args)) + ")");
      hide Upper;
      assert PrintedAll(p, args) == seq(|args|, i requires 0 <= i < |args| => CanonicalName(p, args[i]));
    case Alias(x, _) => PrintedUpper(p, x);
    case Unary(op, x) =>
      PrintedUpper(p, x);
      UpperConcat(UnaryText(op), CanonicalName(p, x));
      OperatorsUpper(Add, op);
      hide Upper, UnaryText;
    case Binary(l, op, r) =>
      PrintedUpper(p, l);
      PrintedUpper(p, r);
      BinaryName(p, l, op, r);
      OperatorsUpper(op, Not);
      UpperBinary(CanonicalName(p, l), OpText(op), CanonicalName(p, r));
      hide Upper, OpText, CanonicalName;
  }

  lemma OperatorsUpper(op: BinaryOp, unary: UnaryOp)
    ensures Upper(OpText(op)) == OpText(op) && Upper(UnaryText(unary)) == UnaryText(unary)
  {
  }

  lemma UpperBinary(a: string, o: string, b: string)
    requires Upper(a) == a && Upper(o) == o && Upper(b) == b
    ensures Upper("(" + a + (o + (b + ")"))) == "(" + a + (o + (b + ")"))
  {
    UpperConcat("(" + a, o + (b + ")"));
    UpperConcat("(", a);
    UpperConcat(o, b + ")");
    UpperConcat(b, ")");
    assert Upper("(") == "(" && Upper(")") == ")";
    hide Upper;
  }

  lemma {:induction false} JoinUpper(texts: seq<string>)
    requires forall t | t in texts :: Upper(t) == t
    ensures Upper(Join(texts)) == Join(texts)
  {
    if |texts| > 1 {
      JoinUpper(texts[1..]);
      assert Upper(",") == ",";
      UpperConcat(texts[0] + ",", Join(texts[1..]));
      UpperConcat(texts[0], ",");
      assert texts[0] in texts;
      hide Upper;
    } else if texts != [] {
      assert texts[0] in texts;
    }
  }

  lemma ScalarName(p: Printer, e: Expr)
    requires e.Scalar? && Readable(p, e)
    ensures CanonicalName(p, e) == Upper(p.scalar(e.fn)) + ("(" + (Join(PrintedAll(p, e.args)) + ")"))
  {
    var texts, name := PrintedAll(p, e.args), p.scalar(e.fn);
    assert texts == seq(|e.args|, i requires 0 <= i < |e.args| => CanonicalName(p, e.args[i]));
    assert CanonicalName(p, e) == Upper(name + "(" + Join(texts) + ")");
    forall t | t in texts
      ensures Upper(t) == t
    {
      var i :| 0 <= i < |texts| && texts[i] == t;
      PrintedUpper(p, e.args[i]);
    }
    JoinUpper(texts);
    assert name + "(" + Join(texts) + ")" == name + ("(" + (Join(texts) + ")"));
    UpperConcat(name, "(" + (Join(texts) + ")"));
    UpperConcat("(", Join(texts) + ")");
    UpperConcat(Join(texts), ")");
    assert Upper("(") == "(" && Upper(")") == ")";
    hide Upper, Join, CanonicalName;
  }

  // ---------- What a name starts with, and what may follow ----------

  predicate SymbolChar(c: char) {
    c in "+-*/%=!<>|&^"
  }

  /** What follows an operand: nothing, an operator, a closing parenthesis or a comma. */
  predicate Follows(s: string) {
    s == "" || SymbolChar(s[0]) || s[0] == ')' || s[0] == ','
  }

  predicate StartChar(c: char) {
    TokenChar(c) || c in "(-+~"
  }

  lemma {:induction false} NameStarts(p: Printer, e: Expr)
    requires Readable(p, e)
    ensures CanonicalName(p, e) != "" && StartChar(CanonicalName(p, e)[0])
    decreases e
  {
    hide OpText;
    match e
    case Column(_, _, _) => TokenName(p, e);
    case Literal(_) => TokenName(p, e);
    case Scalar(fn, _) =>
      ScalarName(p, e);
      UpperWord(p.scalar(fn));
      hide CanonicalName, Upper;
      assert CanonicalName(p, e)[0] == Upper(p.scalar(fn))[0];
    case Alias(x, _) => NameStarts(p, x);
    case _ =>
  }

  /** The name of a column or number is one token. */
  lemma TokenName(p: Printer, e: Expr)
    requires Readable(p, e) && (e.Column? || e.Literal?)
    ensures var s := CanonicalName(p, e); s != "" && Token(s) && (IsDigit(s[0]) <==> e.Literal?)
  {
    if e.Column? {
      UpperWord(e.name);
      if e.table.Some? {
        UpperWord(e.table.value);
      }
    }
    hide Upper;
  }

  lemma UpperWord(s: string)
    requires Identifier(s)
    ensures Word(Upper(s)) && !IsDigit(Upper(s)[0])
  {
    forall i | 0 <= i < |s|
      ensures WordChar(Upper(s)[i])
    {
      assert s[i] in s;
    }
  }

  /** A text splits in one way into a token and what cannot continue it. */
  lemma TokenEnds(a: string, s: string, b: string, t: string)
    requires Token(a) && Token(b) && (s == "" || !TokenChar(s[0])) && (t == "" || !TokenChar(t[0]))
    requires a + s == b + t
    ensures a == b && s == t
  {
    hide TokenChar, Token;
    var u := a + s;
    assert a == u[..|a|] && b == u[..|b|] && s == u[|a|..] && t == u[|b|..];
    LongerIsNoToken(u, a, b);
    LongerIsNoToken(u, b, a);
  }

  lemma LongerIsNoToken(u: string, a: string, b: string)
    requires a <= u && b <= u && (|a| < |u| ==> !TokenChar(u[|a|]))
    ensures |a| < |b| ==> !Token(b)
  {
    if |a| < |b| {
      assert b[|a|] in b && b[|a|] == u[|a|];
    }
  }

  lemma SymbolText(op: BinaryOp)
    requires !op.And? && !op.Or?
    ensures 1 <= |OpText(op)| <= 2 && SymbolChar(OpText(op)[0])
    ensures |OpText(op)| == 2 ==> !StartChar(OpText(op)[1])
  {
    SymbolLength(op);
    if |OpText(op)| == 2 {
      SecondSymbol(op);
      hide OpText;
    }
  }

  lemma SymbolLength(op: BinaryOp)
    requires !op.And? && !op.Or?
    ensures 1 <= |OpText(op)| <= 2 && SymbolChar(OpText(op)[0])
  {
  }

  lemma SecondSymbol(op: BinaryOp)
    requires !op.And? && !op.Or? && |OpText(op)| == 2
    ensures OpText(op)[1] in "=|<>"
  {
  }

  /** An operator is told from what follows it. */
  lemma OperatorEnds(op: BinaryOp, x: string, other: BinaryOp, y: string)
    requires !op.And? && !op.Or? && !other.And? && !other.Or?
    requires x != "" && y != "" && StartChar(x[0]) && StartChar(y[0])
    requires OpText(op) + x == OpText(other) + y
    ensures op == other && x == y
  {
    SymbolText(op);
    SymbolText(other);
    OperatorTexts(op, other);
    hide OpText, SymbolChar, StartChar;
    var a, b := OpText(op), OpText(other);
    var u := a + x;
    assert a == u[..|a|] && b == u[..|b|] && x == u[|a|..] && y == u[|b|..];
    LongerIsNoOperator(u, a, b);
    LongerIsNoOperator(u, b, a);
  }

  lemma LongerIsNoOperator(u: string, a: string, b: string)
    requires a <= u && b <= u && 1 <= |a| && |b| <= 2 && |a| < |u| && StartChar(u[|a|])
    ensures |a| < |b| ==> StartChar(b[1])
  {
  }

  // ---------- Reading a name back ----------

  datatype Shape = OneToken | Call | Negation | Signed | Bracketed

  function ShapeOf(e: Expr): Shape
  {
    match e
    case Scalar(_, _) => Call
    case Unary(op, _) => if op.Not? then Negation else Signed
    case Binary(_, _, _) => Bracketed
    case _ => OneToken
  }

  /** The token a name starts with, and all that follows it. */
  function Lead(p: Printer, e: Expr): string {
    match ShapeOf(e)
    case OneToken => CanonicalName(p, e)
    case Call => Upper(p.scalar(e.fn))
    case Negation => "NOT"
    case Signed => ""
    case Bracketed => ""
  }

  function AfterLead(p: Printer, e: Expr, s: string): string {
    match ShapeOf(e)
    case OneToken => s
    case Call => "(" + (Join(PrintedAll(p, e.args)) + (")" + s))
    case Negation => " " + (CanonicalName(p, e.operand) + s)
    case _ => CanonicalName(p, e) + s
  }

  /** The token, and the first character after it, tell the shape. */
  lemma Leads(p: Printer, e: Expr, s: string)
    requires Readable(p, e) && !e.Alias? && Follows(s)
    ensures var a, r := Lead(p, e), AfterLead(p, e, s);
            && CanonicalName(p, e) + s == a + r
            && Token(a) && (r == "" || !TokenChar(r[0]))
            && match ShapeOf(e)
               case OneToken => a != "" && (r == "" || (r[0] != '(' && r[0] != ' '))
               case Call => a != "" && r != "" && r[0] == '('
               case Negation => a != "" && r != "" && r[0] == ' '
               case Signed => a == "" && r != "" && r[0] != '('
               case Bracketed => a == "" && r != "" && r[0] == '('
  {
    match ShapeOf(e)
    case OneToken => TokenName(p, e);
    case Call => CallLeads(p, e, s);
    case Negation => NotName(p, e, s);
    case _ => OtherStart(p, e, s);
  }

  lemma CallLeads(p: Printer, e: Expr, s: string)
    requires Readable(p, e) && e.Scalar?
    ensures CanonicalName(p, e) + s == Lead(p, e) + AfterLead(p, e, s) && Token(Lead(p, e)) && Lead(p, e) != ""
  {
    ScalarName(p, e);
    UpperWord(p.scalar(e.fn));
    hide CanonicalName, Upper, Join;
    var a, args := Upper(p.scalar(e.fn)), Join(PrintedAll(p, e.args));
    assert a + ("(" + (args + ")")) + s == a + ("(" + (args + (")" + s)));
  }

  lemma NotName(p: Printer, f: Expr, t: string)
    requires f.Unary? && f.uop.Not?
    ensures CanonicalName(p, f) + t == "NOT" + (" " + (CanonicalName(p, f.operand) + t))
  {
    var x := CanonicalName(p, f.operand);
    assert CanonicalName(p, f) == "NOT " + x && "NOT " == "NOT" + " ";
    hide CanonicalName;
    assert "NOT " + x + t == "NOT" + (" " + (x + t));
  }

  lemma OtherStart(p: Printer, f: Expr, t: string)
    requires f.Binary? || (f.Unary? && !f.uop.Not?)
    ensures CanonicalName(p, f) + t != "" && !TokenChar((CanonicalName(p, f) + t)[0]) && ((CanonicalName(p, f) + t)[0] == '(' <==> f.Binary?)
  {
    hide OpText;
  }

  /** Names with what follows them agree only for one expression. */
  lemma {:induction false} ReadBack(p: Printer, e: Expr, s: string, f: Expr, t: string)
    requires Readable(p, e) && Readable(p, f) && Follows(s) && Follows(t)
    requires CanonicalName(p, e) + s == CanonicalName(p, f) + t
    ensures Same(p, e, f) && s == t
    decreases e, f
  {
    hide CanonicalName, SymbolChar, Identifier, Number;
    if e.Alias? {
      AliasName(p, e);
      ReadBack(p, e.operand, s, f, t);
    } else if f.Alias? {
      AliasName(p, f);
      ReadBack(p, e, s, f.operand, t);
    } else {
      SameShape(p, e, s, f, t);
      match ShapeOf(e)
      case OneToken => LeavesReadBack(p, e, s, f, t);
      case Call => CallReadBack(p, e, s, f, t);
      case Bracketed => BinaryReadBack(p, e, s, f, t);
      case _ =>
        UnaryReadBack(p, e, s, f, t);
        ReadBack(p, e.operand, s, f.operand, t);
    }
  }

  lemma AliasName(p: Printer, e: Expr)
    requires e.Alias?
    ensures CanonicalName(p, e) == CanonicalName(p, e.operand)
  {
  }

  lemma SameShape(p: Printer, e: Expr, s: string, f: Expr, t: string)
    requires Readable(p, e) && Readable(p, f) && !e.Alias? && !f.Alias? && Follows(s) && Follows(t)
    requires CanonicalName(p, e) + s == CanonicalName(p, f) + t
    ensures ShapeOf(e) == ShapeOf(f) && Lead(p, e) == Lead(p, f) && AfterLead(p, e, s) == AfterLead(p, f, t)
  {
    hide *;
    Leads(p, e, s);
    Leads(p, f, t);
    TokenEnds(Lead(p, e), AfterLead(p, e, s), Lead(p, f), AfterLead(p, f, t));
  }

  lemma LeavesReadBack(p: Printer, e: Expr, s: string, f: Expr, t: string)
    requires Readable(p, e) && Readable(p, f) && (e.Column? || e.Literal?) && (f.Column? || f.Literal?)
    requires CanonicalName(p, e) == CanonicalName(p, f)
    ensures Same(p, e, f)
  {
    TokenName(p, e);
    TokenName(p, f);
    hide Upper, Identifier, Number;
    if e.Column? {
      IdentifiersHaveNoDots(p, e);
      IdentifiersHaveNoDots(p, f);
      ColumnNameIff(p, e, f);
    }
  }

  lemma IdentifiersHaveNoDots(p: Printer, c: Expr)
    requires Readable(p, c) && c.Column?
    ensures NoDots(c)
  {
    UpperWord(c.name);
    if c.table.Some? {
      UpperWord(c.table.value);
    }
    hide Upper, Identifier;
  }

  lemma {:induction false} CallReadBack(p: Printer, e: Expr, s: string, f: Expr, t: string)
    requires Readable(p, e) && Readable(p, f) && Follows(s) && Follows(t) && e.Scalar? && f.Scalar?
    requires Lead(p, e) == Lead(p, f) && AfterLead(p, e, s) == AfterLead(p, f, t)
    ensures Same(p, e, f) && s == t
    decreases e, f, 0
  {
    hide CanonicalName, Join, Upper, Follows;
    var x, y := Join(PrintedAll(p, e.args)), Join(PrintedAll(p, f.args));
    SamePrefix("(", x + (")" + s), y + (")" + t));
    forall i | 0 <= i < |e.args|
      ensures e.args[i] < e && Readable(p, e.args[i])
    {
      assert e.args[i] in e.args;
    }
    ListReadBack(p, e, e.args, s, f.args, t);
  }

  /** The arguments of a call, up to its closing parenthesis. */
  lemma {:induction false} ListReadBack(p: Printer, parent: Expr, xs: seq<Expr>, s: string, ys: seq<Expr>, t: string)
    requires (forall i | 0 <= i < |xs| :: xs[i] < parent && Readable(p, xs[i])) && forall y | y in ys :: Readable(p, y)
    requires Join(PrintedAll(p, xs)) + (")" + s) == Join(PrintedAll(p, ys)) + (")" + t)
    ensures s == t && |xs| == |ys| && forall i | 0 <= i < |xs| :: Same(p, xs[i], ys[i])
    decreases parent, ys, 0
  {
    hide CanonicalName, Join, Same, Readable;
    ListStarts(p, xs, s);
    ListStarts(p, ys, t);
    if xs != [] && ys != [] {
      var u, v := ListTail(p, xs, s), ListTail(p, ys, t);
      assert ys[0] in ys;
      ReadBack(p, xs[0], u, ys[0], v);
      assert |xs| == 1 <==> |ys| == 1 by {
        assert u[0] == if |xs| == 1 then ')' else ',';
        assert v[0] == if |ys| == 1 then ')' else ',';
      }
      if |xs| > 1 {
        SamePrefix(",", Join(PrintedAll(p, xs[1..])) + (")" + s), Join(PrintedAll(p, ys[1..])) + (")" + t));
        ListReadBack(p, parent, xs[1..], s, ys[1..], t);
        SameFromSecond(p, xs, ys);
      } else {
        SamePrefix(")", s, t);
      }
    } else {
      SamePrefix(")", s, t);
    }
  }

  lemma SameFromSecond(p: Printer, xs: seq<Expr>, ys: seq<Expr>)
    requires xs != [] && |xs| == |ys| && Same(p, xs[0], ys[0])
    requires forall i | 0 <= i < |xs| - 1 :: Same(p, xs[1..][i], ys[1..][i])
    ensures forall i | 0 <= i < |xs| :: Same(p, xs[i], ys[i])
  {
    hide Same;
    forall i | 0 < i < |xs|
      ensures Same(p, xs[i], ys[i])
    {
      assert xs[i] == xs[1..][i - 1] && ys[i] == ys[1..][i - 1];
    }
  }

  /** What follows the first argument. */
  function ListTail(p: Printer, xs: seq<Expr>, s: string): string
    requires xs != []
  {
    if |xs| == 1 then ")" + s else "," + (Join(PrintedAll(p, xs[1..])) + (")" + s))
  }

  lemma ListStarts(p: Printer, xs: seq<Expr>, s: string)
    requires forall i | 0 <= i < |xs| :: Readable(p, xs[i])
    ensures var u := Join(PrintedAll(p, xs)) + (")" + s);
            && (xs == [] ==> u == ")" + s)
            && (xs != [] ==> u == CanonicalName(p, xs[0]) + ListTail(p, xs, s) && Follows(ListTail(p, xs, s)) && StartChar(u[0]))
  {
    hide CanonicalName, Readable;
    if xs != [] {
      NameStarts(p, xs[0]);
      var texts := PrintedAll(p, xs);
      assert PrintedAll(p, xs[1..]) == texts[1..];
      if |xs| > 1 {
        assert Join(texts) == texts[0] + "," + Join(texts[1..]);
        assert texts[0] + "," + Join(texts[1..]) + (")" + s) == texts[0] + ("," + (Join(texts[1..]) + (")" + s)));
      }
    }
  }

  lemma UnaryReadBack(p: Printer, e: Expr, s: string, f: Expr, t: string)
    requires e.Unary? && f.Unary? && CanonicalName(p, e) + s == CanonicalName(p, f) + t
    ensures e.uop == f.uop && CanonicalName(p, e.operand) + s == CanonicalName(p, f.operand) + t
  {
    UnaryTexts(e.uop, f.uop);
    var x, y := CanonicalName(p, e.operand), CanonicalName(p, f.operand);
    assert CanonicalName(p, e) + s == UnaryText(e.uop) + (x + s) && CanonicalName(p, f) + t == UnaryText(f.uop) + (y + t);
    UnaryTextsFilled(e.uop);
    UnaryTextsFilled(f.uop);
    hide CanonicalName, UnaryText;
    assert (UnaryText(e.uop) + (x + s))[0] == UnaryText(e.uop)[0];
    assert (UnaryText(f.uop) + (y + t))[0] == UnaryText(f.uop)[0];
    SamePrefix(UnaryText(e.uop), x + s, y + t);
  }

  lemma UnaryTextsFilled(op: UnaryOp)
    ensures UnaryText(op) != "" && UnaryText(op)[0] != '('
  {
  }

  /** An operator and its right operand, as they follow the left one. */
  function Tail(p: Printer, e: Expr, s: string): string
    requires e.Binary?
  {
    OpText(e.op) + (CanonicalName(p, e.right) + (")" + s))
  }

  lemma BinaryParts(p: Printer, e: Expr, s: string)
    requires e.Binary?
    ensures CanonicalName(p, e) + s == "(" + (CanonicalName(p, e.left) + Tail(p, e, s))
  {
    BinaryName(p, e.left, e.op, e.right);
    hide CanonicalName, OpText;
    var l, o, r := CanonicalName(p, e.left), OpText(e.op), CanonicalName(p, e.right);
    assert "(" + l + (o + (r + ")")) + s == "(" + (l + (o + (r + (")" + s))));
  }

  lemma TailFollows(p: Printer, e: Expr, s: string)
    requires e.Binary? && Readable(p, e)
    ensures Follows(Tail(p, e, s))
  {
    SymbolText(e.op);
    hide CanonicalName, OpText, SymbolChar;
    assert Tail(p, e, s)[0] == OpText(e.op)[0];
  }

  lemma TailReadBack(p: Printer, e: Expr, s: string, f: Expr, t: string)
    requires e.Binary? && f.Binary? && Readable(p, e) && Readable(p, f) && Tail(p, e, s) == Tail(p, f, t)
    ensures e.op == f.op && CanonicalName(p, e.right) + (")" + s) == CanonicalName(p, f.right) + (")" + t)
  {
    NameStarts(p, e.right);
    NameStarts(p, f.right);
    hide CanonicalName, OpText, StartChar;
    var x, y := CanonicalName(p, e.right), CanonicalName(p, f.right);
    assert (x + (")" + s))[0] == x[0] && (y + (")" + t))[0] == y[0];
    OperatorEnds(e.op, x + (")" + s), f.op, y + (")" + t));
  }

  lemma {:induction false} BinaryReadBack(p: Printer, e: Expr, s: string, f: Expr, t: string)
    requires Readable(p, e) && Readable(p, f) && Follows(s) && Follows(t) && e.Binary? && f.Binary?
    requires CanonicalName(p, e) + s == CanonicalName(p, f) + t
    ensures Same(p, e, f) && s == t
    decreases e, f, 0
  {
    hide CanonicalName, SymbolChar, Tail;
    BinaryParts(p, e, s);
    BinaryParts(p, f, t);
    SamePrefix("(", CanonicalName(p, e.left) + Tail(p, e, s), CanonicalName(p, f.left) + Tail(p, f, t));
    TailFollows(p, e, s);
    TailFollows(p, f, t);
    ReadBack(p, e.left, Tail(p, e, s), f.left, Tail(p, f, t));
    TailReadBack(p, e, s, f, t);
    ReadBack(p, e.right, ")" + s, f.right, ")" + t);
    SamePrefix(")", s, t);
  }

  /** Two names agree exactly when the expressions are the same, the case of names aside. */
  lemma NameReadsBack(p: Printer, e: Expr, f: Expr)
    requires Readable(p, e) && Readable(p, f)
    ensures CanonicalName(p, e) == CanonicalName(p, f) <==> Same(p, e, f)
  {
    hide CanonicalName, Readable, Same, SymbolChar;
    if CanonicalName(p, e) == CanonicalName(p, f) {
      ReadBack(p, e, "", f, "");
    }
    if Same(p, e, f) {
      SameNames(p, e, f);
    }
  }

  // ---------- One operator over two columns ----------

  /** A column whose name and table consist of letters, digits and underscores. */
  predicate WordColumn(c: Expr) {
    c.Column? && c.name != "" && Word(c.name) && (c.table.Some? ==> c.table.value != "" && Word(c.table.value))
  }

  lemma WordColumnName(p: Printer, c: Expr)
    requires WordColumn(c)
    ensures CanonicalName(p, c) != "" && Token(CanonicalName(p, c)) && NoDots(c)
  {
    WordUpper(c.name);
    if c.table.Some? {
      WordUpper(c.table.value);
    }
    hide Upper;
  }

  lemma WordUpper(s: string)
    requires Word(s)
    ensures Word(Upper(s))
  {
    forall i | 0 <= i < |s|
      ensures WordChar(Upper(s)[i])
    {
      assert s[i] in s;
    }
  }

  /** Over such columns the names of two operations agree exactly when the operators and both operands do, case aside. */
  lemma OperationTells(p: Printer, a: Expr, op: BinaryOp, b: Expr, c: Expr, other: BinaryOp, d: Expr)
    requires WordColumn(a) && WordColumn(b) && WordColumn(c) && WordColumn(d)
    requires !op.And? && !op.Or? && !other.And? && !other.Or?
    ensures CanonicalName(p, Binary(a, op, b)) == CanonicalName(p, Binary(c, other, d))
            <==> op == other && SameColumn(a, c) && SameColumn(b, d)
  {
    WordColumnName(p, a);
    WordColumnName(p, b);
    WordColumnName(p, c);
    WordColumnName(p, d);
    ColumnNameIff(p, a, c);
    ColumnNameIff(p, b, d);
    BinaryName(p, a, op, b);
    BinaryName(p, c, other, d);
    hide *;
    OperationParts(CanonicalName(p, a), op, CanonicalName(p, b), CanonicalName(p, c), other, CanonicalName(p, d));
    assert SameColumn(a, c) <==> CanonicalName(p, a) == CanonicalName(p, c) by {
      SameColumnName(p, a, c);
    }
    assert SameColumn(b, d) <==> CanonicalName(p, b) == CanonicalName(p, d) by {
      SameColumnName(p, b, d);
    }
  }

  lemma SameColumnName(p: Printer, c: Expr, d: Expr)
    requires c.Column? && d.Column? && NoDots(c) && NoDots(d)
    ensures SameColumn(c, d) <==> CanonicalName(p, c) == CanonicalName(p, d)
  {
    hide CanonicalName, Upper, NoDots;
    ColumnNameIff(p, c, d);
  }

  lemma OperationParts(a: string, op: BinaryOp, b: string, c: string, other: BinaryOp, d: string)
    requires a != "" && b != "" && c != "" && d != "" && Token(a) && Token(b) && Token(c) && Token(d)
    requires !op.And? && !op.Or? && !other.And? && !other.Or?
    ensures "(" + a + (OpText(op) + (b + ")")) == "(" + c + (OpText(other) + (d + ")")) <==> a == c && op == other && b == d
  {
    var x, y := OpText(op) + (b + ")"), OpText(other) + (d + ")");
    if "(" + a + x == "(" + c + y {
      assert "(" + a + x == "(" + (a + x) && "(" + c + y == "(" + (c + y);
      SamePrefix("(", a + x, c + y);
      SymbolNoToken(op);
      SymbolNoToken(other);
      assert b[0] in b && d[0] in d;
      assert StartChar(b[0]) && StartChar(d[0]);
      hide OpText, Token, TokenChar, StartChar;
      assert x[0] == OpText(op)[0] && y[0] == OpText(other)[0];
      TokenEnds(a, x, c, y);
      assert (b + ")")[0] == b[0] && (d + ")")[0] == d[0];
      OperatorEnds(op, b + ")", other, d + ")");
      SameSuffix(b, d, ")");
    }
  }

  lemma SymbolNoToken(op: BinaryOp)
    requires !op.And? && !op.Or?
    ensures OpText(op) != "" && !TokenChar(OpText(op)[0])
  {
  }

  /** Two calls over one argument that differ in its operator only. */
  function OverOperator(call: Expr, l: Expr, op: BinaryOp, r: Expr): Expr
    requires call.Aggregate?
  {
    Aggregate(call.func, [Binary(l, op, r)], call.distinct, call.filter, call.orderBy, call.limit, call.ignoreNulls)
  }

  lemma OverOperatorTells(p: Printer, call: Expr, l: Expr, op: BinaryOp, other: BinaryOp, r: Expr)
    requires call.Aggregate?
    ensures CanonicalName(p, OverOperator(call, l, op, r)) == CanonicalName(p, OverOperator(call, l, other, r)) <==> op == other
  {
    var e, f := OverOperator(call, l, op, r), OverOperator(call, l, other, r);
    NameParts(p, e);
    NameParts(p, f);
    OneArgument(p, Binary(l, op, r));
    OneArgument(p, Binary(l, other, r));
    OperatorTells(p, l, r, op, other);
    hide CanonicalName, ArgumentsText;
    var head := call.func + "(" + (if call.distinct then "DISTINCT" else "");
    SameSuffix(head + ArgumentsText(p, e.args), head + ArgumentsText(p, f.args), ")");
    SamePrefix(head, ArgumentsText(p, e.args), ArgumentsText(p, f.args));
  }

  lemma OneArgument(p: Printer, x: Expr)
    ensures ArgumentsText(p, [x]) == CanonicalName(p, x)
  {
    hide CanonicalName;
    assert seq(1, i requires 0 <= i < 1 => CanonicalName(p, [x][i])) == [CanonicalName(p, x)];
  }

  /** `SUM(a + b)` and `SUM(a - b)` in one SELECT: whatever the operands, each has its own value on the rows of the finished grouped table. */
  lemma OperatorsApart(p: Printer, keys: seq<Expr>, s: AggregateList, call: Expr, l: Expr, op: BinaryOp, other: BinaryOp, r: Expr,
                       later: seq<Use>, env: Env, agg: Expr -> Outcome, member: Row, keyRow: Row, aggRow: Row)
    requires call.Aggregate? && op != other && Aligned(s, |keys|)
    requires forall o | o in {op, other} :: OverOperator(call, l, o, r) !in keys && CanonicalName(p, OverOperator(call, l, o, r)) !in s.names
    requires var first := Rewrite(p, keys, s, OverOperator(call, l, op, r));
             var second := Rewrite(p, keys, first.list, OverOperator(call, l, other, r));
             Run(p, keys, second.list, later).Some? && GroupRow(env, agg, keys, Run(p, keys, second.list, later).value, member, keyRow, aggRow)
    ensures var first := Rewrite(p, keys, s, OverOperator(call, l, op, r));
            var second := Rewrite(p, keys, first.list, OverOperator(call, l, other, r));
            && ColumnRight(env, agg, first.expr, OverOperator(call, l, op, r), keyRow, aggRow)
            && ColumnRight(env, agg, second.expr, OverOperator(call, l, other, r), keyRow, aggRow)
  {
    var e, f := OverOperator(call, l, op, r), OverOperator(call, l, other, r);
    OverOperatorTells(p, call, l, op, other, r);
    assert e !in keys && f !in keys && CanonicalName(p, e) !in s.names && CanonicalName(p, f) !in s.names;
    hide *;
    OwnColumns(p, keys, s, e, f, later, env, agg, member, keyRow, aggRow);
  }

  /** Two calls of different names, neither recorded before, one rewritten after the other. */
  lemma OwnColumns(p: Printer, keys: seq<Expr>, s: AggregateList, e: Expr, f: Expr,
                   later: seq<Use>, env: Env, agg: Expr -> Outcome, member: Row, keyRow: Row, aggRow: Row)
    requires e.Aggregate? && f.Aggregate? && e !in keys && f !in keys && Aligned(s, |keys|)
    requires CanonicalName(p, e) != CanonicalName(p, f) && CanonicalName(p, e) !in s.names && CanonicalName(p, f) !in s.names
    requires var second := Rewrite(p, keys, Rewrite(p, keys, s, e).list, f);
             Run(p, keys, second.list, later).Some? && GroupRow(env, agg, keys, Run(p, keys, second.list, later).value, member, keyRow, aggRow)
    ensures ColumnRight(env, agg, Rewrite(p, keys, s, e).expr, e, keyRow, aggRow)
    ensures ColumnRight(env, agg, Rewrite(p, keys, Rewrite(p, keys, s, e).list, f).expr, f, keyRow, aggRow)
  {
    hide CanonicalName, Eval, GroupRow, Aligned, Run, Rewrite;
    var first := Rewrite(p, keys, s, e);
    var second := Rewrite(p, keys, first.list, f);
    var t := Run(p, keys, second.list, later).value;
    RewriteGrows(p, keys, s, e);
    RewriteGrows(p, keys, first.list, f);
    RunGrows(p, keys, second.list, later);
    RewrittenNames(p, keys, s, e);
    ExtendsTransitive(first.list, second.list, t);
    CallReads(p, keys, s, e, t, env, agg, member, keyRow, aggRow);
    CallReads(p, keys, first.list, f, t, env, agg, member, keyRow, aggRow);
  }

  lemma RewrittenNames(p: Printer, keys: seq<Expr>, s: AggregateList, e: Expr)
    requires e.Aggregate? && e !in keys && CanonicalName(p, e) !in s.names
    ensures Rewrite(p, keys, s, e).list.names == s.names + [CanonicalName(p, e)]
  {
    hide CanonicalName;
  }

  // ---------- AND and OR are printed as words ----------

  /** `x AND yandz` has the name of `xandy AND z`: AND is printed without spaces, so names run into it. */
  lemma AndConfused(p: Printer, x: string, y: string, z: string)
    ensures CanonicalName(p, Binary(Column(None, x, None), And, Column(None, y + "and" + z, None)))
            == CanonicalName(p, Binary(Column(None, x + "and" + y, None), And, Column(None, z, None)))
  {
    hide *;
    UpperAround(x, y);
    UpperAround(y, z);
    AndName(p, x, y + "and" + z);
    AndName(p, x + "and" + y, z);
    Regrouped(Upper(x), Upper(y), Upper(z));
  }

  lemma AndName(p: Printer, x: string, y: string)
    ensures CanonicalName(p, Binary(Column(None, x, None), And, Column(None, y, None))) == "(" + Upper(x) + ("AND" + (Upper(y) + ")"))
  {
    hide Upper;
    BinaryName(p, Column(None, x, None), And, Column(None, y, None));
  }

  lemma UpperAround(x: string, y: string)
    ensures Upper(x + "and" + y) == Upper(x) + "AND" + Upper(y)
  {
    hide *;
    UpperAnd();
    UpperConcat(x + "and", y);
    UpperConcat(x, "and");
  }

  lemma Regrouped(a: string, b: string, c: string)
    ensures "(" + a + ("AND" + (b + "AND" + c + ")")) == "(" + (a + "AND" + b) + ("AND" + (c + ")"))
  {
  }

  lemma UpperAnd()
    ensures Upper("and") == "AND"
  {
    var u := Upper("and");
    assert u[0] == 'A' && u[1] == 'N' && u[2] == 'D';
  }

  // ---------- Calls ----------

  /** A call over arguments that can be read back. */
  predicate ReadableCall(p: Printer, e: Expr) {
    e.Aggregate? && '(' !in e.func && forall x | x in e.args :: Readable(p, x)
  }

  predicate SameCall(p: Printer, e: Expr, f: Expr)
    requires e.Aggregate? && f.Aggregate?
  {
    && e.func == f.func && e.distinct == f.distinct && |e.args| == |f.args|
    && forall i | 0 <= i < |e.args| :: Same(p, e.args[i], f.args[i])
  }

  /** The name of a readable argument, and what follows it, does not start with the word DISTINCT. */
  lemma {:induction false} NotDistinct(p: Printer, e: Expr, s: string)
    requires Readable(p, e) && Follows(s)
    ensures !("DISTINCT" <= CanonicalName(p, e) + s)
    decreases e
  {
    if e.Alias? {
      AliasName(p, e);
      NotDistinct(p, e.operand, s);
    } else {
      Leads(p, e, s);
      LeadNotDistinct(p, e);
      AfterLeadStops(p, e, s);
      hide CanonicalName, Readable, Lead, AfterLead;
      StopsDistinct(Lead(p, e), AfterLead(p, e, s));
    }
  }

  lemma LeadNotDistinct(p: Printer, e: Expr)
    requires Readable(p, e) && !e.Alias?
    ensures !("DISTINCT" <= Lead(p, e))
  {
    if e.Column? {
      ColumnNotDistinct(p, e);
    } else if e.Literal? {
      TokenName(p, e);
    }
    hide CanonicalName, Upper;
  }

  lemma AfterLeadStops(p: Printer, e: Expr, s: string)
    requires Readable(p, e) && !e.Alias? && Follows(s)
    ensures AfterLead(p, e, s) == "" || AfterLead(p, e, s)[0] !in "DISTINCT"
  {
    Leads(p, e, s);
    hide CanonicalName, Readable, Lead, AfterLead;
  }

  lemma ColumnNotDistinct(p: Printer, e: Expr)
    requires Readable(p, e) && e.Column?
    ensures !("DISTINCT" <= CanonicalName(p, e))
  {
    if e.table.Some? {
      assert CanonicalName(p, e) == Upper(e.table.value) + ("." + Upper(e.name));
      hide Upper, CanonicalName;
      StopsDistinct(Upper(e.table.value), "." + Upper(e.name));
    }
  }

  lemma StopsDistinct(n: string, s: string)
    requires !("DISTINCT" <= n) && (s == "" || s[0] !in "DISTINCT")
    ensures !("DISTINCT" <= n + s)
  {
    var word := "DISTINCT";
    assert |n| < |word| && s != "" ==> (n + s)[|n|] == s[0] && word[|n|] in word;
    assert |n| >= |word| ==> (n + s)[..|word|] == n[..|word|];
  }

  lemma ArgumentsNotDistinct(p: Printer, es: seq<Expr>)
    requires forall x | x in es :: Readable(p, x)
    ensures !("DISTINCT" <= ArgumentsText(p, es))
  {
    hide CanonicalName, Readable, Join;
    ListStarts(p, es, "");
    var u := ArgumentsText(p, es) + (")" + "");
    assert ArgumentsText(p, es) == Join(PrintedAll(p, es));
    if es != [] {
      NotDistinct(p, es[0], ListTail(p, es, ""));
    }
    assert "DISTINCT" <= ArgumentsText(p, es) ==> "DISTINCT" <= u;
  }

  /** Two calls over readable arguments have one name exactly when they are the same call, the case of names aside. */
  lemma CallNameIff(p: Printer, e: Expr, f: Expr)
    requires ReadableCall(p, e) && ReadableCall(p, f)
    ensures CanonicalName(p, e) == CanonicalName(p, f) <==> SameCall(p, e, f)
  {
    ArgumentsNotDistinct(p, e.args);
    ArgumentsNotDistinct(p, f.args);
    hide CanonicalName, Readable, Same, ArgumentsText;
    NamesCollideIff(p, e, f);
    SameArguments(p, e, e.args, f.args);
  }

  lemma SameArguments(p: Printer, parent: Expr, xs: seq<Expr>, ys: seq<Expr>)
    requires (forall i | 0 <= i < |xs| :: xs[i] < parent && Readable(p, xs[i])) && forall y | y in ys :: Readable(p, y)
    ensures ArgumentsText(p, xs) == ArgumentsText(p, ys) <==> |xs| == |ys| && forall i | 0 <= i < |xs| :: Same(p, xs[i], ys[i])
  {
    hide CanonicalName, Readable, Same, Join;
    assert ArgumentsText(p, xs) == Join(PrintedAll(p, xs)) && ArgumentsText(p, ys) == Join(PrintedAll(p, ys));
    if ArgumentsText(p, xs) == ArgumentsText(p, ys) {
      ListReadBack(p, parent, xs, "", ys, "");
    }
    if |xs| == |ys| && forall i | 0 <= i < |xs| :: Same(p, xs[i], ys[i]) {
      forall i | 0 <= i < |xs|
        ensures CanonicalName(p, xs[i]) == CanonicalName(p, ys[i])
      {
        assert ys[i] in ys;
        SameNames(p, xs[i], ys[i]);
      }
      assert PrintedAll(p, xs) == PrintedAll(p, ys);
    }
  }

  // ---------- A SELECT over readable calls ----------

  /** A readable call without filter, ORDER BY, LIMIT or IGNORE NULLS. */
  predicate PlainCall(p: Printer, e: Expr) {
    ReadableCall(p, e) && e.filter.None? && e.orderBy == [] && e.limit.None? && !e.ignoreNulls
  }

  /** Every aggregate in the expression is plain, those within grouping keys aside. */
  predicate PlainCalls(p: Printer, keys: seq<Expr>, e: Expr)
    decreases e
  {
    e in keys || (if e.Aggregate? then PlainCall(p, e) else forall c | c in Children(e) :: PlainCalls(p, keys, c))
  }

  /** A recorded name that a plain call has stands for the same call. */
  ghost predicate Tells(p: Printer, name: string, e: Expr) {
    PlainCall(p, e) && forall f | PlainCall(p, f) && CanonicalName(p, f) == name :: SameCall(p, e, f)
  }

  ghost predicate AllTell(p: Printer, s: AggregateList) {
    |s.names| == |s.exprs| && forall i | 0 <= i < |s.names| :: Tells(p, s.names[i], s.exprs[i])
  }

  /** What HAVING, ORDER BY and the items record tells the calls. */
  ghost predicate TellingUse(p: Printer, keys: seq<Expr>, use: Use) {
    match use
    case PureItem(text, planned) => Tells(p, TextName(text), planned)
    case MixedItem(e) => PlainCalls(p, keys, e)
    case Having(x) => TellingCalls(p, true, x)
    case OrderBy(x) => TellingCalls(p, false, x)
  }

  ghost predicate TellingCalls(p: Printer, having: bool, x: Parsed) {
    forall c | c in CallsIn(having, x) && c.planned.Some? :: Tells(p, CallName(p, having, c), c.planned.value)
  }

  /** Aggregates do not depend on the case of names. */
  ghost predicate CaseBlind(p: Printer, agg: Expr -> Outcome) {
    forall e, f | PlainCall(p, e) && PlainCall(p, f) && SameCall(p, e, f) :: agg(e) == agg(f)
  }

  lemma OwnNameTells(p: Printer, e: Expr)
    requires PlainCall(p, e)
    ensures Tells(p, CanonicalName(p, e), e)
  {
    hide CanonicalName, SameCall, Readable;
    forall f | PlainCall(p, f) && CanonicalName(p, f) == CanonicalName(p, e)
      ensures SameCall(p, e, f)
    {
      CallNameIff(p, e, f);
    }
  }

  lemma {:induction false} RewriteTells(p: Printer, keys: seq<Expr>, s: AggregateList, e: Expr)
    requires AllTell(p, s) && PlainCalls(p, keys, e)
    ensures AllTell(p, Rewrite(p, keys, s, e).list)
    decreases e, 1, 0
  {
    hide CanonicalName, Tells, PlainCall;
    if e !in keys {
      if e.Aggregate? {
        OwnNameTells(p, e);
      } else if Descended(e) {
        ChildrenBelow(e);
        assert forall c | c in Children(e) :: PlainCalls(p, keys, c);
        RewriteAllTells(p, keys, s, Children(e), e);
      }
    }
  }

  lemma {:induction false} RewriteAllTells(p: Printer, keys: seq<Expr>, s: AggregateList, es: seq<Expr>, parent: Expr)
    requires Below(es, parent) && AllTell(p, s) && forall c | c in es :: PlainCalls(p, keys, c)
    ensures AllTell(p, RewriteAll(p, keys, s, es, parent).list)
    decreases parent, 0, |es|
  {
    hide AllTell, PlainCalls, Rewrite;
    if es != [] {
      var n := |es| - 1;
      RewriteAllTells(p, keys, s, es[..n], parent);
      RewriteTells(p, keys, RewriteAll(p, keys, s, es[..n], parent).list, es[n]);
    }
  }

  lemma CollectTells(p: Printer, having: bool, s: AggregateList, x: Parsed)
    requires AllTell(p, s) && TellingCalls(p, having, x) && Collect(p, having, s, x).Some?
    ensures AllTell(p, Collect(p, having, s, x).value)
  {
    hide Tells, CallName, Collect;
    CollectMeans(p, having, s, x);
    var t, calls := Collect(p, having, s, x).value, CallsIn(having, x);
    forall k | 0 <= k < |t.names|
      ensures Tells(p, t.names[k], t.exprs[k])
    {
      if k < |s.names| {
        assert t.names[k] == s.names[k] && t.exprs[k] == s.exprs[k];
      } else {
        assert IsFirstCall(p, having, calls, t.names[k], t.exprs[k]);
        var i :| 0 <= i < |calls| && FirstCalled(p, having, calls, i, t.names[k], t.exprs[k]);
        assert calls[i] in calls;
      }
    }
  }

  lemma UseTells(p: Printer, keys: seq<Expr>, s: AggregateList, use: Use)
    requires AllTell(p, s) && TellingUse(p, keys, use) && Apply(p, keys, s, use).Some?
    ensures AllTell(p, Apply(p, keys, s, use).value)
  {
    hide Tells, TextName, TellingCalls, PlainCalls, Rewrite, Collect;
    match use
    case PureItem(_, _) =>
    case MixedItem(e) => RewriteTells(p, keys, s, e);
    case Having(x) => CollectTells(p, true, s, x);
    case OrderBy(x) => CollectTells(p, false, s, x);
  }

  lemma {:induction false} RunTells(p: Printer, keys: seq<Expr>, s: AggregateList, uses: seq<Use>)
    requires AllTell(p, s) && (forall u | u in uses :: TellingUse(p, keys, u)) && Run(p, keys, s, uses).Some?
    ensures AllTell(p, Run(p, keys, s, uses).value)
    decreases |uses|
  {
    hide AllTell, TellingUse, Apply;
    if uses != [] {
      UseTells(p, keys, s, uses[0]);
      RunTells(p, keys, Apply(p, keys, s, uses[0]).value, uses[1..]);
    }
  }

  lemma {:induction false} RunSplits(p: Printer, keys: seq<Expr>, s: AggregateList, uses: seq<Use>, k: nat)
    requires k < |uses| && Run(p, keys, s, uses).Some?
    ensures Run(p, keys, s, uses[..k]).Some?
    ensures var t := Apply(p, keys, Run(p, keys, s, uses[..k]).value, uses[k]);
            t.Some? && Run(p, keys, t.value, uses[k + 1..]) == Run(p, keys, s, uses)
    decreases k
  {
    hide Apply;
    if k > 0 {
      RunSplits(p, keys, Apply(p, keys, s, uses[0]).value, uses[1..], k - 1);
      assert uses[..k][1..] == uses[1..][..k - 1] && uses[1..][k..] == uses[k + 1..];
    }
  }

  lemma {:induction false} TellingNames(p: Printer, keys: seq<Expr>, agg: Expr -> Outcome, t: AggregateList, e: Expr)
    requires AllTell(p, t) && CaseBlind(p, agg) && PlainCalls(p, keys, e)
    ensures NamesTell(p, keys, agg, t, e)
    decreases e
  {
    hide CanonicalName, SameCall, PlainCall;
    if e !in keys {
      if e.Aggregate? {
        forall i | 0 <= i < |t.exprs| && i < |t.names| && t.names[i] == CanonicalName(p, e)
          ensures agg(t.exprs[i]) == agg(e)
        {
          assert Tells(p, t.names[i], t.exprs[i]);
        }
      } else {
        forall c | c in Children(e)
          ensures NamesTell(p, keys, agg, t, c)
        {
          TellingNames(p, keys, agg, t, c);
        }
      }
    }
  }

  /**
   A whole SELECT whose aggregates are plain calls over columns, numbers and symbols: every item that is
   rewritten has its own value on the rows of the finished grouped table.
   */
  lemma SelectRight(p: Printer, keys: seq<Expr>, keyFields: seq<PlanField>, uses: seq<Use>, k: nat,
                    env: Env, agg: Expr -> Outcome, member: Row, keyRow: Row, aggRow: Row)
    requires |keyFields| == |keys| && k < |uses| && uses[k].MixedItem? && Grouped(uses[k].expr, keys)
    requires (forall u | u in uses :: TellingUse(p, keys, u)) && CaseBlind(p, agg)
    requires var start := AggregateList([], [], keyFields);
             Run(p, keys, start, uses).Some? && GroupRow(env, agg, keys, Run(p, keys, start, uses).value, member, keyRow, aggRow)
    ensures var s := Run(p, keys, AggregateList([], [], keyFields), uses[..k]);
            && s.Some?
            && Eval(RowEnv(env), Rewrite(p, keys, s.value, uses[k].expr).expr, keyRow + aggRow) == Eval(GroupEnv(env, agg), uses[k].expr, member)
  {
    hide Eval, GroupRow, Rewrite, Grouped, NamesTell, Run, TellingCalls, PlainCalls, CaseBlind, Tells, TextName, Collect;
    var start, e := AggregateList([], [], keyFields), uses[k].expr;
    var t := Run(p, keys, start, uses).value;
    assert uses[k] in uses && TellingUse(p, keys, uses[k]);
    RunSplits(p, keys, start, uses, k);
    RunTells(p, keys, start, uses);
    TellingNames(p, keys, agg, t, e);
    RunGrows(p, keys, start, uses[..k]);
    SelectSound(p, keys, Run(p, keys, start, uses[..k]).value, e, uses[k + 1..], env, agg, member, keyRow, aggRow);
  }
}
