/**
 * The SQL compiler of the fluent query builder (Gaara/Core/Model/QueryBuilder/Support.php).
 *
 * A builder holds nullable clause fragments (select, from, data, join, where,
 * group, having, order, limit, lock), the statement kind `sqlType`, the
 * `noFrom` switch, the union clauses grouped by union type, and the
 * placeholder bindings it has allocated from a counter shared by every
 * builder. `toSql` assembles the statement text in a fixed grammatical order
 * and records, on the builder and on its model, a diagnostic copy in which
 * the caller's bindings are substituted.
 */
module QuerySupport {
  import opened Wrappers
  import opened PhpStrings
  import opened PhpArray

  /**
   * The statement kinds toSql switches on; Other is any other non-null
   * sqlType string, which falls to the switch's default branch.
   */
  datatype SqlType = Select | Update | Insert | Replace | Delete | Other(name: string)

  /** The builder's fragments as toSql reads them; None is PHP's null. */
  datatype Clauses = Clauses(
    table: string,
    sqlType: Option<SqlType>,
    select: Option<string>,
    from: Option<string>,
    noFrom: bool,
    data: Option<string>,
    join: Option<string>,
    where: Option<string>,
    group: Option<string>,
    having: Option<string>,
    order: Option<string>,
    limit: Option<string>,
    lock: Option<string>,
    union: OrderedMap<seq<string>>)

  /** The fragments of a builder nobody has configured yet. */
  function EmptyClauses(table: string): Clauses {
    Clauses(table, None, None, None, false, None, None, None, None, None, None, None, None, [])
  }

  // ---------------------------------------------------------------- the deal* helpers

  function DealSelect(c: Clauses): string {
    if c.select.None? then "*" else c.select.value
  }

  function DealFromSelect(c: Clauses): string {
    if c.noFrom then ""
    else if c.from.None? then " from `" + c.table + "`"
    else " from " + c.from.value
  }

  function DealFrom(c: Clauses): string {
    if c.from.None? then "`" + c.table + "`" else c.from.value
  }

  function DealData(c: Clauses): string {
    if c.data.None? then "" else " " + c.data.value
  }

  function DealJoin(c: Clauses): string {
    if c.join.None? then "" else " " + c.join.value
  }

  /** Without a statement kind the where fragment is emitted bare (the orWhere sub-builder case). */
  function DealWhere(c: Clauses): string {
    if c.where.None? then ""
    else if c.sqlType.None? then c.where.value
    else " where " + c.where.value
  }

  function DealGroup(c: Clauses): string {
    if c.group.None? then "" else " group by " + c.group.value
  }

  function DealHaving(c: Clauses): string {
    if c.having.None? then "" else " having " + c.having.value
  }

  function DealOrder(c: Clauses): string {
    if c.order.None? then "" else " order by " + c.order.value
  }

  function DealLimit(c: Clauses): string {
    if c.limit.None? then "" else " limit " + c.limit.value
  }

  function DealLock(c: Clauses): string {
    if c.lock.None? then "" else " " + c.lock.value
  }

  /** bracketFormat: the value wrapped in round brackets, recoverable from between them. */
  function BracketFormat(value: string): (r: string)
    ensures |r| == |value| + 2 && r[0] == '(' && r[|r| - 1] == ')'
    ensures r[1..|r| - 1] == value
  {
    "(" + value + ")"
  }

  // ---------------------------------------------------------------- toSql as a function

  /** The statement kinds toSql knows; for these it records lastSql. */
  predicate Remembers(c: Clauses) {
    c.sqlType.Some? && !c.sqlType.value.Other?
  }

  /** The leading statement chosen by the switch on sqlType. */
  function Head(c: Clauses): (r: string)
    ensures r == "" <==> !Remembers(c)
  {
    match c.sqlType
    case Some(Select) => "select " + DealSelect(c) + DealFromSelect(c)
    case Some(Update) => "update " + DealFrom(c) + " set" + DealData(c)
    case Some(Insert) => "insert into " + DealFrom(c) + " set" + DealData(c)
    case Some(Replace) => "replace into " + DealFrom(c) + " set" + DealData(c)
    case Some(Delete) => "delete from " + DealFrom(c)
    case _ => ""
  }

  /** The clauses that follow the head, always in this order. */
  function ClauseTail(c: Clauses): string {
    DealJoin(c) + DealWhere(c) + DealGroup(c) + DealHaving(c) + DealOrder(c) + DealLimit(c) + DealLock(c)
  }

  function Statement(c: Clauses): string {
    Head(c) + ClauseTail(c)
  }

  /** The union clauses of one type, in insertion order, each as type + (clause). */
  function GroupTail(unionType: string, clauses: seq<string>): string {
    if clauses == [] then ""
    else GroupTail(unionType, clauses[..|clauses| - 1]) + (unionType + BracketFormat(clauses[|clauses| - 1]))
  }

  /** All union clauses, type by type. */
  function UnionTail(u: OrderedMap<seq<string>>): string {
    if u == [] then ""
    else UnionTail(u[..|u| - 1]) + GroupTail(u[|u| - 1].0, u[|u| - 1].1)
  }

  /** The text toSql returns for the given fragments. */
  function Compile(c: Clauses): string {
    if c.union == [] then Statement(c) else BracketFormat(Statement(c)) + UnionTail(c.union)
  }

  /** The quote-wrapped copy of the bindings that rememberSql's loop produces. */
  function QuoteValues(pars: OrderedMap<string>): (q: OrderedMap<string>)
    ensures |q| == |pars|
    ensures forall i :: 0 <= i < |pars| ==> q[i] == (pars[i].0, "'" + pars[i].1 + "'")
  {
    seq(|pars|, i requires 0 <= i < |pars| => (pars[i].0, "'" + pars[i].1 + "'"))
  }

  /** The diagnostic SQL: every binding key replaced by its value in single quotes, by strtr. */
  function RememberedSql(sql: string, pars: OrderedMap<string>): string {
    Strtr(sql, ToMap(QuoteValues(pars)))
  }

  /** The placeholder valueFormat allocates for counter value n. */
  function Token(n: nat): string {
    ":" + NatToString(n)
  }

  // ---------------------------------------------------------------- the statement head

  /** The head depends only on sqlType, select, from, noFrom, data and the table name. */
  lemma StatementHead(c: Clauses)
    ensures c.sqlType == Some(Select) ==>
      Statement(c) == "select " + (if c.select.None? then "*" else c.select.value)
        + (if c.noFrom then "" else if c.from.None? then " from `" + c.table + "`" else " from " + c.from.value)
        + ClauseTail(c)
    ensures c.sqlType == Some(Update) ==>
      Statement(c) == "update " + DealFrom(c) + " set" + (if c.data.None? then "" else " " + c.data.value) + ClauseTail(c)
    ensures c.sqlType == Some(Insert) ==>
      Statement(c) == "insert into " + DealFrom(c) + " set" + (if c.data.None? then "" else " " + c.data.value) + ClauseTail(c)
    ensures c.sqlType == Some(Replace) ==>
      Statement(c) == "replace into " + DealFrom(c) + " set" + (if c.data.None? then "" else " " + c.data.value) + ClauseTail(c)
    ensures c.sqlType == Some(Delete) ==> Statement(c) == "delete from " + DealFrom(c) + ClauseTail(c)
    ensures DealFrom(c) == if c.from.None? then "`" + c.table + "`" else c.from.value
  {
    match c.sqlType {
      case Some(Select) => assert Head(c) == "select " + DealSelect(c) + DealFromSelect(c);
      case Some(Update) => assert Head(c) == "update " + DealFrom(c) + " set" + DealData(c);
      case Some(Insert) => assert Head(c) == "insert into " + DealFrom(c) + " set" + DealData(c);
      case Some(Replace) => assert Head(c) == "replace into " + DealFrom(c) + " set" + DealData(c);
      case Some(Delete) => assert Head(c) == "delete from " + DealFrom(c);
      case _ =>
    }
  }

  /** What a fragment adds to the statement: nothing when null, else its keyword and its text. */
  function Contribution(keyword: string, fragment: Option<string>): string {
    if fragment.None? then "" else keyword + fragment.value
  }

  /**
   * With a statement kind set, the clauses after the head are join, where,
   * group, having, order, limit and lock, in that order, each contributing
   * exactly '' when null.
   */
  lemma ClauseOrder(c: Clauses)
    requires c.sqlType.Some?
    ensures ClauseTail(c) ==
      Contribution(" ", c.join) + Contribution(" where ", c.where) + Contribution(" group by ", c.group)
      + Contribution(" having ", c.having) + Contribution(" order by ", c.order)
      + Contribution(" limit ", c.limit) + Contribution(" ", c.lock)
  {
  }

  /** Without a statement kind there is no head and the where fragment carries no keyword. */
  lemma DegenerateMode(c: Clauses)
    requires c.sqlType.None?
    ensures !Remembers(c)
    ensures Statement(c) == ClauseTail(c)
    ensures DealWhere(c) == if c.where.None? then "" else c.where.value
  {
    assert Head(c) == "";
  }

  /** A fresh sub-builder given only a where fragment compiles to exactly that fragment (orWhere). */
  lemma SubBuilderWhere(table: string, w: string)
    ensures Compile(EmptyClauses(table).(where := Some(w))) == w
  {
    var c := EmptyClauses(table).(where := Some(w));
    assert Head(c) == "";
    assert ClauseTail(c) == w;
  }

  // ---------------------------------------------------------------- unions

  /** The clauses of one union type, each paired with the type. */
  function Pairs(t: string, cs: seq<string>): (ps: seq<(string, string)>)
    ensures |ps| == |cs| && forall i :: 0 <= i < |cs| ==> ps[i] == (t, cs[i])
  {
    seq(|cs|, i requires 0 <= i < |cs| => (t, cs[i]))
  }

  /** The union clauses flattened: type order first, then insertion order within a type. */
  function Flatten(u: OrderedMap<seq<string>>): seq<(string, string)> {
    if u == [] then [] else Flatten(u[..|u| - 1]) + Pairs(u[|u| - 1].0, u[|u| - 1].1)
  }

  /** Each (type, clause) written as type + '(' + clause + ')', left to right. */
  function RenderUnions(ps: seq<(string, string)>): string {
    if ps == [] then "" else (ps[0].0 + BracketFormat(ps[0].1)) + RenderUnions(ps[1..])
  }

  lemma {:induction false} RenderUnionsAppend(a: seq<(string, string)>, b: seq<(string, string)>)
    ensures RenderUnions(a + b) == RenderUnions(a) + RenderUnions(b)
  {
    if a != [] {
      assert (a + b)[1..] == a[1..] + b;
      RenderUnionsAppend(a[1..], b);
    } else {
      assert a + b == b;
    }
  }

  lemma {:induction false} GroupTailRenders(t: string, cs: seq<string>)
    ensures GroupTail(t, cs) == RenderUnions(Pairs(t, cs))
  {
    if cs != [] {
      var init := cs[..|cs| - 1];
      var last := cs[|cs| - 1];
      GroupTailRenders(t, init);
      assert Pairs(t, cs) == Pairs(t, init) + [(t, last)];
      RenderUnionsAppend(Pairs(t, init), [(t, last)]);
      assert [(t, last)][1..] == [];
      assert RenderUnions([(t, last)]) == t + BracketFormat(last);
    }
  }

  /**
   * With unions the statement so far is bracketed, and then every union
   * clause follows as type + (clause), in type order and then insertion order.
   */
  lemma {:induction false} UnionLayout(c: Clauses)
    requires c.union != []
    ensures Compile(c) == "(" + Statement(c) + ")" + RenderUnions(Flatten(c.union))
  {
    UnionTailRenders(c.union);
  }

  lemma {:induction false} UnionTailRenders(u: OrderedMap<seq<string>>)
    ensures UnionTail(u) == RenderUnions(Flatten(u))
  {
    if u != [] {
      var last := u[|u| - 1];
      UnionTailRenders(u[..|u| - 1]);
      GroupTailRenders(last.0, last.1);
      RenderUnionsAppend(Flatten(u[..|u| - 1]), Pairs(last.0, last.1));
    }
  }

  // ---------------------------------------------------------------- rememberSql

  /**
   * A literal bound to placeholder :n, spliced into the SQL as ' :n ' by
   * valueFormat, reappears in the diagnostic SQL as its value between single
   * quotes, provided every binding key is a ':'-led word without spaces and
   * no ':' comes earlier in the statement.
   */
  lemma LiteralRecovered(before: string, n: nat, after: string, pars: OrderedMap<string>, i: nat)
    requires ':' !in before
    requires DistinctKeys(pars)
    requires forall j :: 0 <= j < |pars| ==> pars[j].0 != [] && pars[j].0[0] == ':' && ' ' !in pars[j].0
    requires i < |pars| && pars[i].0 == Token(n)
    ensures RememberedSql(before + " " + Token(n) + " " + after, pars)
      == before + " '" + pars[i].1 + "' " + RememberedSql(after, pars)
  {
    var m := ToMap(QuoteValues(pars));
    QuotedBindings(pars, i);
    StrtrSplicedKey(before, Token(n), after, m, ':');
    QuotedSplice(before, pars[i].1, Strtr(after, m));
  }

  /** The quoted value between the spaces reads as one piece of text. */
  lemma QuotedSplice(before: string, v: string, rest: string)
    ensures before + " " + ("'" + v + "'") + " " + rest == before + " '" + v + "' " + rest
  {
  }

  /** The quoted bindings, as the map strtr consults: ':'-led keys without spaces, values quoted. */
  lemma QuotedBindings(pars: OrderedMap<string>, i: nat)
    requires DistinctKeys(pars)
    requires forall j :: 0 <= j < |pars| ==> pars[j].0 != [] && pars[j].0[0] == ':' && ' ' !in pars[j].0
    requires i < |pars|
    ensures var m := ToMap(QuoteValues(pars));
      && (forall k :: k in m ==> k != [] && k[0] == ':' && ' ' !in k)
      && pars[i].0 in m && m[pars[i].0] == "'" + pars[i].1 + "'"
  {
    var q := QuoteValues(pars);
    var m := ToMap(q);
    assert DistinctKeys(q);
    ToMapLastWins(q, i);
    forall k | k in m ensures k != [] && k[0] == ':' && ' ' !in k {
      var j :| 0 <= j < |q| && q[j].0 == k;
    }
  }

  /** In a PHP array every key's entry is the one ToMap keeps. */
  lemma ToMapLastWins(a: OrderedMap<string>, i: nat)
    requires DistinctKeys(a) && i < |a|
    ensures a[i].0 in ToMap(a) && ToMap(a)[a[i].0] == a[i].1
    decreases |a|
  {
    if i < |a| - 1 {
      assert a[..|a| - 1][i] == a[i];
      ToMapLastWins(a[..|a| - 1], i);
    }
  }

  // ---------------------------------------------------------------- identifier formatting

  /** A dotted name keeps its first and last segments, each back-quoted. */
  function QuoteDotted(s: string): string {
    var parts := Explode(s, ".");
    "`" + parts[0] + "`.`" + parts[|parts| - 1] + "`"
  }

  /** fieldFormat's treatment of the part before any alias: function call, dotted or bare name. */
  function OperandFormat(maybeFunc: string): string {
    match IndexOf(maybeFunc, "(")
    case Some(p) =>
      var a := maybeFunc[p..];
      var action := ReplaceAll(maybeFunc, a, "");
      var inner := RTrim(LTrim(a, {'('}), {')'});
      action + "(" + (if Contains(inner, ".") then QuoteDotted(inner) else "`" + inner + "`") + ")"
    case None =>
      if !Contains(maybeFunc, ".") then "`" + maybeFunc + "`" else QuoteDotted(maybeFunc)
  }

  /** fieldFormat: back-quotes the identifiers of a field expression with an optional alias. */
  function FieldFormat(field: string): string {
    match IndexOfIgnoreCase(field, " as ")
    case Some(at) =>
      var asWord := field[at..at + 4];
      var info := Explode(field, asWord);
      OperandFormat(info[0]) + " as `" + info[|info| - 1] + "`"
    case None =>
      OperandFormat(field)
  }

  /** A field without spaces has no alias: stristr finds no ' as '. */
  lemma NoSpaceNoAlias(f: string)
    requires ' ' !in f
    ensures IndexOfIgnoreCase(f, " as ").None?
  {
    forall j | 0 <= j && j + 4 <= |f| ensures !OccursAtIgnoreCase(f, " as ", j) {
      assert Lower(f[j..j + 4])[0] == LowerChar(f[j]);
    }
  }

  /** A bare column name is back-quoted. */
  lemma FieldFormatName(f: string)
    requires ' ' !in f && '(' !in f && '.' !in f
    ensures FieldFormat(f) == "`" + f + "`"
  {
    NoSpaceNoAlias(f);
    NotContainsLead(f, "(");
    NotContainsLead(f, ".");
  }

  /** Two dot-free names joined by a dot: the dot is found and both parts are back-quoted. */
  lemma QuoteDottedPair(t: string, c: string)
    requires '.' !in t && '.' !in c
    ensures Contains(t + "." + c, ".")
    ensures QuoteDotted(t + "." + c) == "`" + t + "`.`" + c + "`"
  {
    assert OccursAt(t + "." + c, ".", |t|);
    ExplodeAtChar(t, '.', c);
  }

  /** With more than one dot only the first and the last segment survive. */
  lemma QuoteDottedDropsMiddle(a: string, b: string, c: string)
    requires '.' !in a && '.' !in b && '.' !in c
    ensures QuoteDotted(a + "." + b + "." + c) == "`" + a + "`.`" + c + "`"
  {
    assert a + "." + b + "." + c == a + ['.'] + (b + "." + c);
    ExplodeHeadAtChar(a, '.', b + "." + c);
    ExplodeAtChar(b, '.', c);
  }

  /** table.column: both parts back-quoted, joined by the dot. */
  lemma OperandQualified(t: string, c: string)
    requires '(' !in t && '.' !in t && '(' !in c && '.' !in c
    ensures OperandFormat(t + "." + c) == "`" + t + "`.`" + c + "`"
  {
    NotContainsLead(t + "." + c, "(");
    QuoteDottedPair(t, c);
  }

  /**
   * The argument part of a call starts at the first '(': str_replace of it
   * by '' leaves exactly the function name.
   */
  lemma CallSplit(fn: string, a: string)
    requires '(' !in fn && a != [] && a[0] == '('
    ensures IndexOf(fn + a, "(") == Some(|fn|)
    ensures ReplaceAll(fn + a, a, "") == fn
  {
    var s := fn + a;
    assert s[|fn|..|fn| + 1] == "(";
    forall j | 0 <= j < |fn| ensures !OccursAt(s, "(", j) {
      assert s[j..j + 1][0] == fn[j];
    }
    FirstOccurrence(s, "(", |fn|);
    var pairs := map[a := ""];
    StrtrCopiesPlainText(fn, a, pairs, '(');
    StrtrWhole(a, pairs);
  }

  /** ltrim '(' then rtrim ')' takes off exactly the outer brackets of a clean argument. */
  lemma StripBrackets(inner: string)
    requires inner == [] || (inner[0] != '(' && inner[|inner| - 1] != ')')
    ensures RTrim(LTrim("(" + inner + ")", {'('}), {')'}) == inner
  {
    var v := inner + ")";
    assert "(" + inner + ")" == ['('] + v;
    assert v[0] != '(' by {
      if inner != [] { assert v[0] == inner[0]; }
    }
    LTrimOne('(', v, {'('});
    RTrimOne(inner, ')', {')'});
  }


  /** A call: the name before the first '(' kept, the bracketed argument formatted inside new brackets. */
  lemma OperandCallShape(fn: string, inner: string)
    requires '(' !in fn
    requires inner == [] || (inner[0] != '(' && inner[|inner| - 1] != ')')
    ensures OperandFormat(fn + "(" + inner + ")")
      == fn + "(" + (if Contains(inner, ".") then QuoteDotted(inner) else "`" + inner + "`") + ")"
  {
    var a := "(" + inner + ")";
    var s := fn + a;
    assert fn + "(" + inner + ")" == s;
    CallSplit(fn, a);
    assert s[|fn|..] == a;
    StripBrackets(inner);
  }

  /** The argument of func(table.column) neither starts with '(' nor ends with ')'. */
  lemma QualifiedIsClean(t: string, c: string)
    requires '(' !in t && ')' !in c
    ensures var inner := t + "." + c; inner[0] != '(' && inner[|inner| - 1] != ')'
  {
    var inner := t + "." + c;
    if t == [] { assert inner[0] == '.'; } else { assert inner[0] == t[0]; }
    if c == [] { assert inner[|inner| - 1] == '.'; } else { assert inner[|inner| - 1] == c[|c| - 1]; }
  }

  /** func(table.column): the function name kept, the argument back-quoted part by part. */
  lemma OperandCall(fn: string, t: string, c: string)
    requires '(' !in fn
    requires '(' !in t && '.' !in t && '(' !in c && '.' !in c && ')' !in c
    ensures OperandFormat(fn + "(" + t + "." + c + ")") == fn + "(`" + t + "`.`" + c + "`)"
  {
    var inner := t + "." + c;
    var q := "`" + t + "`.`" + c + "`";
    QualifiedIsClean(t, c);
    QuoteDottedPair(t, c);
    calc {
      OperandFormat(fn + "(" + t + "." + c + ")");
      { assert fn + "(" + t + "." + c + ")" == fn + "(" + inner + ")"; }
      OperandFormat(fn + "(" + inner + ")");
      { OperandCallShape(fn, inner); }
      fn + "(" + q + ")";
      fn + "(`" + t + "`.`" + c + "`)";
    }
  }

  /**
   * An alias after ' as ' (any letter case): the operand is formatted on its
   * own and the alias back-quoted after a lower-case ' as '.
   */
  lemma FieldFormatAlias(m: string, w: string, al: string)
    requires ' ' !in m && ' ' !in al
    requires |w| == 4 && Lower(w) == " as "
    ensures FieldFormat(m + w + al) == OperandFormat(m) + " as `" + al + "`"
  {
    var f := m + w + al;
    assert w[0] == ' ' by {
      assert LowerChar(w[0]) == ' ';
    }
    assert f[|m|..|m| + 4] == w;
    forall j | 0 <= j < |m| ensures !OccursAtIgnoreCase(f, " as ", j) && !OccursAt(f, w, j) {
      assert f[j] == m[j];
      assert Lower(f[j..j + 4])[0] == LowerChar(f[j]);
    }
    FirstOccurrenceIgnoreCase(f, " as ", |m|);
    NotContainsLead(al, w);
    ExplodeTwo(m, w, al);
  }

  /** func(table.column) as alias: both rules together. */
  lemma FieldFormatCallAlias(fn: string, t: string, c: string, al: string)
    requires ' ' !in fn && ' ' !in t && ' ' !in c && ' ' !in al
    requires '(' !in fn && '(' !in t && '.' !in t && '(' !in c && '.' !in c && ')' !in c
    ensures FieldFormat(fn + "(" + t + "." + c + ")" + " as " + al)
      == fn + "(`" + t + "`.`" + c + "`)" + " as `" + al + "`"
  {
    var m := fn + "(" + t + "." + c + ")";
    assert Lower(" as ") == " as ";
    assert ' ' !in m;
    FieldFormatAlias(m, " as ", al);
    OperandCall(fn, t, c);
  }

  /** partFormat: the fragment trimmed of white space with one space on each side. */
  function PartFormat(part: string): (r: string)
    ensures |r| >= 2 && r[0] == ' ' && r[|r| - 1] == ' '
    ensures var t := r[1..|r| - 1]; t == [] || (t[0] !in TrimDefault && t[|t| - 1] !in TrimDefault)
    ensures exists i, j ::
      (&& 0 <= i <= j <= |part| && r == " " + part[i..j] + " "
       && (forall m :: 0 <= m < i ==> part[m] in TrimDefault)
       && (forall m :: j <= m < |part| ==> part[m] in TrimDefault))
  {
    TrimmedEnds(part, TrimDefault);
    TrimIsSlice(part, TrimDefault);
    " " + Trim(part, TrimDefault) + " "
  }

  /** Formatting a fragment twice gives the same text as formatting it once. */
  lemma PartFormatIdempotent(part: string)
    ensures PartFormat(PartFormat(part)) == PartFormat(part)
  {
    TrimmedEnds(part, TrimDefault);
    TrimPadded(Trim(part, TrimDefault), TrimDefault);
  }

  /** toSql's union loops: each clause appended as type + (clause), type by type. */
  method AppendUnions(prefix: string, u: OrderedMap<seq<string>>) returns (sql: string)
    ensures sql == prefix + UnionTail(u)
  {
    sql := prefix;
    var i := 0;
    while i < |u|
      invariant 0 <= i <= |u|
      invariant sql == prefix + UnionTail(u[..i])
    {
      var (unionType, clauses) := u[i];
      ghost var before := sql;
      var j := 0;
      while j < |clauses|
        invariant 0 <= j <= |clauses|
        invariant sql == before + GroupTail(unionType, clauses[..j])
      {
        assert clauses[..j + 1][..j] == clauses[..j];
        AppendAssoc(before, GroupTail(unionType, clauses[..j]), unionType + BracketFormat(clauses[j]));
        sql := sql + (unionType + BracketFormat(clauses[j]));
        j := j + 1;
      }
      assert clauses[..j] == clauses;
      assert u[..i + 1][..i] == u[..i];
      AppendAssoc(prefix, UnionTail(u[..i]), GroupTail(unionType, clauses));
      i := i + 1;
    }
    assert u[..i] == u;
  }

  /** Distinct counter values give distinct placeholders. */
  lemma TokenInjective(a: nat, b: nat)
    requires Token(a) == Token(b)
    ensures a == b
  {
    assert Token(a)[1..] == NatToString(a);
    assert Token(b)[1..] == NatToString(b);
    NatToStringInjective(a, b);
  }

  /**
   * The placeholder of the next counter value is not yet bound, so binding
   * it appends, and the bindings keep the shape the builder's invariant
   * asks for with the counter one further.
   */
  lemma FreshBinding(bindings: OrderedMap<string>, issued: seq<nat>, n: nat, value: string)
    requires |issued| == |bindings|
    requires forall i :: 0 <= i < |bindings| ==> bindings[i].0 == Token(issued[i]) && issued[i] < n
    requires forall i, j :: 0 <= i < j < |issued| ==> issued[i] < issued[j]
    ensures Put(bindings, Token(n), value) == bindings + [(Token(n), value)]
    ensures var b := bindings + [(Token(n), value)]; var s := issued + [n];
      && (forall i :: 0 <= i < |b| ==> b[i].0 == Token(s[i]) && s[i] < n + 1)
      && (forall i, j :: 0 <= i < j < |s| ==> s[i] < s[j])
  {
    forall j | 0 <= j < |bindings|
      ensures bindings[j].0 != Token(n)
    {
      if bindings[j].0 == Token(n) {
        TokenInjective(issued[j], n);
      }
    }
  }

  // ---------------------------------------------------------------- the builder object

  /** The class-wide binding counter: one object shared by every builder. */
  class BindingCounter {
    var next: nat

    constructor (start: nat)
      ensures next == start
    {
      next := start;
    }
  }

  /** The model a builder reports its diagnostic SQL to (setLastSql). */
  class ModelRef {
    var lastSql: string

    constructor ()
      ensures lastSql == ""
    {
      lastSql := "";
    }
  }

  /**
   * A query builder: table and primary key fixed at construction, the clause
   * fragments set by the (unmodelled) fluent mutators, the bindings this
   * builder has allocated, and the last diagnostic SQL.
   */
  class QueryBuilder {
    const table: string
    const primaryKey: string
    const counter: BindingCounter
    const model: ModelRef

    var sqlType: Option<SqlType>
    var select: Option<string>
    var from: Option<string>
    var noFrom: bool
    var data: Option<string>
    var join: Option<string>
    var where: Option<string>
    var group: Option<string>
    var having: Option<string>
    var order: Option<string>
    var limit: Option<string>
    var lock: Option<string>
    var union: OrderedMap<seq<string>>

    var bindings: OrderedMap<string>
    var lastSql: string
    /** The counter values behind the keys of `bindings`, in allocation order. */
    ghost var issued: seq<nat>

    /**
     * Every binding key is the placeholder of a counter value already handed
     * out, and this builder received its values in increasing order.
     */
    ghost predicate Valid()
      reads this, counter
    {
      && |issued| == |bindings|
      && (forall i :: 0 <= i < |bindings| ==> bindings[i].0 == Token(issued[i]) && issued[i] < counter.next)
      && (forall i, j :: 0 <= i < j < |issued| ==> issued[i] < issued[j])
    }

    /** The fragments toSql reads. */
    function Parts(): Clauses
      reads this
    {
      Clauses(table, sqlType, select, from, noFrom, data, join, where, group, having, order, limit, lock, union)
    }

    constructor (table: string, primaryKey: string, counter: BindingCounter, model: ModelRef)
      ensures this.table == table && this.primaryKey == primaryKey
      ensures this.counter == counter && this.model == model
      ensures Parts() == EmptyClauses(table)
      ensures bindings == [] && lastSql == ""
      ensures Valid()
    {
      this.table := table;
      this.primaryKey := primaryKey;
      this.counter := counter;
      this.model := model;
      sqlType, select, from, noFrom, data := None, None, None, false, None;
      join, where, group, having, order, limit, lock := None, None, None, None, None, None, None;
      union, bindings, lastSql := [], [], "";
      issued := [];
    }

    /**
     * toSql: the statement text for the current fragments; for the five
     * known statement kinds the diagnostic SQL is recorded on the builder
     * and on its model, otherwise nothing changes.
     */
    method ToSql(pars: OrderedMap<string>) returns (sql: string)
      requires DistinctKeys(pars)
      modifies this`lastSql, model`lastSql
      ensures sql == Compile(Parts())
      ensures Remembers(Parts()) ==> lastSql == RememberedSql(sql, pars) && model.lastSql == lastSql
      ensures !Remembers(Parts()) ==> lastSql == old(lastSql) && model.lastSql == old(model.lastSql)
    {
      var c := Parts();
      sql := Statement(c);
      if union != [] {
        sql := AppendUnions(BracketFormat(sql), union);
      }
      if Remembers(c) {
        RememberSql(sql, pars);
      }
    }

    /**
     * rememberSql: every binding value wrapped in single quotes, then the
     * keys replaced in the statement by strtr; the result goes to lastSql and
     * to the model.
     */
    method RememberSql(sql: string, pars: OrderedMap<string>)
      requires DistinctKeys(pars)
      modifies this`lastSql, model`lastSql
      ensures lastSql == RememberedSql(sql, pars) && model.lastSql == lastSql
    {
      var quoted := pars;
      var i := 0;
      while i < |pars|
        invariant 0 <= i <= |pars|
        invariant |quoted| == |pars|
        invariant forall j :: 0 <= j < i ==> quoted[j] == (pars[j].0, "'" + pars[j].1 + "'")
        invariant forall j :: i <= j < |pars| ==> quoted[j] == pars[j]
      {
        var (k, v) := pars[i];
        IndexOfKeyIs(quoted, k, Some(i));
        quoted := Put(quoted, k, "'" + v + "'");
        i := i + 1;
      }
      assert quoted == QuoteValues(pars);
      lastSql := Strtr(sql, ToMap(quoted));
      model.lastSql := lastSql;
    }

    /** getSelf: a new builder on the same table, key, counter and model, with nothing configured. */
    method GetSelf() returns (b: QueryBuilder)
      ensures fresh(b) && b.Valid()
      ensures b.table == table && b.primaryKey == primaryKey && b.counter == counter && b.model == model
      ensures b.Parts() == EmptyClauses(table) && b.bindings == []
    {
      b := new QueryBuilder(table, primaryKey, counter, model);
    }

    /**
     * valueFormat: allocates the next placeholder from the shared counter,
     * binds the value to it (a key this builder has not used before) and
     * returns the placeholder padded with spaces.
     */
    method ValueFormat(value: string) returns (r: string)
      requires Valid()
      modifies this`bindings, this`issued, counter
      ensures Valid()
      ensures counter.next == old(counter.next) + 1
      ensures r == " " + Token(old(counter.next)) + " "
      ensures bindings == old(bindings) + [(Token(old(counter.next)), value)]
      ensures issued == old(issued) + [old(counter.next)]
    {
      var n := counter.next;
      var key := Token(n);
      FreshBinding(bindings, issued, n, value);
      counter.next := n + 1;
      bindings := Put(bindings, key, value);
      issued := issued + [n];
      r := " " + key + " ";
    }
  }

  /**
   * A builder and the sub-builder getSelf gives it (as orWhere and union
   * use) draw on one counter: whatever sequence of valueFormat calls is made
   * on the two (`true` for the builder, `false` for the sub-builder), no
   * placeholder is bound by both.
   */
  method SharedCounterPlaceholders(b: QueryBuilder, calls: seq<(bool, string)>) returns (sub: QueryBuilder)
    requires b.Valid()
    modifies b, b.counter
    ensures fresh(sub) && sub.counter == b.counter && b.Valid() && sub.Valid()
    ensures |b.bindings| + |sub.bindings| == |old(b.bindings)| + |calls|
    ensures forall i, j :: 0 <= i < |b.bindings| && 0 <= j < |sub.bindings| ==> b.bindings[i].0 != sub.bindings[j].0
  {
    sub := b.GetSelf();
    var k := 0;
    while k < |calls|
      invariant 0 <= k <= |calls|
      invariant fresh(sub) && sub != b && sub.counter == b.counter
      invariant b.Valid() && sub.Valid()
      invariant |b.bindings| + |sub.bindings| == |old(b.bindings)| + k
      invariant forall i, j :: 0 <= i < |b.issued| && 0 <= j < |sub.issued| ==> b.issued[i] != sub.issued[j]
    {
      var (toBuilder, value) := calls[k];
      if toBuilder {
        var _ := b.ValueFormat(value);
        assert sub.Valid();
      } else {
        var _ := sub.ValueFormat(value);
        assert b.Valid();
      }
      k := k + 1;
    }
    forall i, j | 0 <= i < |b.bindings| && 0 <= j < |sub.bindings|
      ensures b.bindings[i].0 != sub.bindings[j].0
    {
      if b.bindings[i].0 == sub.bindings[j].0 {
        TokenInjective(b.issued[i], sub.issued[j]);
      }
    }
  }
}
