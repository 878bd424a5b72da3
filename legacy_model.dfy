/**
 * The SQL text builders of the legacy base model (project/Main/Core/Model.class.php).
 *
 * A model knows its table (prefix plus a name derived from its class name)
 * and its primary-key column, and writes INSERT, UPDATE, REPLACE and SELECT
 * statements by concatenation. The database calls that would run the
 * statements are not part of this model: each builder returns its SQL text.
 */
module LegacyModel {
  import opened Wrappers
  import opened PhpStrings
  import opened PhpArray

  // ---------------------------------------------------------------- the table name

  /** strrpos(s, c) for one character: the last index holding c. */
  function LastIndexOf(s: string, c: char): (r: Option<nat>)
    ensures r.Some? ==> r.value < |s| && s[r.value] == c && forall j :: r.value < j < |s| ==> s[j] != c
    ensures r.None? ==> c !in s
  {
    if s == [] then None
    else if s[|s| - 1] == c then Some(|s| - 1)
    else LastIndexOf(s[..|s| - 1], c)
  }

  /**
   * The class's short name as get_thisTable computes it: the text after the
   * last backslash. When there is no backslash, strrpos is false, false + 1
   * is 1, and the first character is lost.
   */
  function ShortNameAsWritten(className: string): (r: string)
    ensures |r| <= |className| && r == className[|className| - |r|..] && '\\' !in r
  {
    match LastIndexOf(className, '\\')
    case Some(i) => className[i + 1..]
    case None => if className == [] then [] else className[1..]
  }

  /** The short name as intended: the text after the last backslash, or the whole name when there is none. */
  function ShortName(className: string): (r: string)
    ensures |r| <= |className| && r == className[|className| - |r|..] && '\\' !in r
  {
    match LastIndexOf(className, '\\')
    case Some(i) => className[i + 1..]
    case None => className
  }

  /** For every namespaced class, which is the usual case, both readings agree. */
  lemma ShortNameNamespaced(className: string)
    requires '\\' in className
    ensures ShortNameAsWritten(className) == ShortName(className)
  {
  }

  /** A class in the global namespace loses its first letter in the code as written. */
  lemma ShortNameGlobalClass(className: string)
    requires className != [] && '\\' !in className
    ensures ShortNameAsWritten(className) == className[1..] != className
    ensures ShortName(className) == className
  {
    assert |className[1..]| < |className|;
  }

  /** The short name of ns\Base is Base. */
  lemma ShortNameIsLastSegment(ns: string, base: string)
    requires '\\' !in base
    ensures ShortName(ns + "\\" + base) == base
  {
    var s := ns + "\\" + base;
    assert s[|ns|] == '\\';
    forall j | |ns| < j < |s| ensures s[j] != '\\' {
      assert s[j] == base[j - |ns| - 1];
    }
    assert s[|ns| + 1..] == base;
  }

  /** The default table name: the short name with every 'Model' removed (strtr). */
  function DefaultTableName(className: string): string {
    ReplaceAll(ShortName(className), "Model", "")
  }

  /** The default table name as get_thisTable computes it, from the as-written short name. */
  function DefaultTableNameAsWritten(className: string): string {
    ReplaceAll(ShortNameAsWritten(className), "Model", "")
  }

  /** The first 'Model' in base + "Model" is the suffix: no 'Model' starts inside base. */
  ghost predicate ModelOnlyAsSuffix(base: string) {
    IndexOf(base + "Model", "Model") == Some(|base|)
  }

  /** Removing every 'Model' from base + "Model" leaves base when the suffix is the first 'Model'. */
  lemma StripModelSuffix(base: string)
    requires ModelOnlyAsSuffix(base)
    ensures ReplaceAll(base + "Model", "Model", "") == base
  {
    StrtrSkipsNonMatches(base, "Model", "Model", "");
    StrtrWhole("Model", map["Model" := ""]);
    assert base + "" == base;
  }

  /**
   * A model class ns\BaseModel gets the table name Base, whenever 'Model'
   * does not start inside Base (so MemberModel gives Member, and
   * ModelXModel, which strtr strips twice, is excluded).
   */
  lemma DefaultTableOfModelClass(ns: string, base: string)
    requires '\\' !in base && ModelOnlyAsSuffix(base)
    ensures DefaultTableName(ns + "\\" + base + "Model") == base
    ensures DefaultTableNameAsWritten(ns + "\\" + base + "Model") == base
  {
    var s := ns + "\\" + base + "Model";
    assert s == ns + "\\" + (base + "Model");
    ShortNameIsLastSegment(ns, base + "Model");
    ShortNameNamespaced(s);
    StripModelSuffix(base);
  }

  /** With the corrected short name, a global class BaseModel gets the table name Base too. */
  lemma DefaultTableOfGlobalModelClass(base: string)
    requires '\\' !in base && ModelOnlyAsSuffix(base)
    ensures DefaultTableName(base + "Model") == base
  {
    var s := base + "Model";
    assert '\\' !in s by {
      assert forall j :: |base| <= j < |s| ==> s[j] == "Model"[j - |base|];
    }
    StripModelSuffix(base);
  }

  // ---------------------------------------------------------------- comma-separated lists

  /**
   * The legacy list accumulation: each piece is appended, after a comma only
   * when the text so far is truthy in PHP ('' and '0' are not).
   */
  function TruthyJoin(pieces: seq<string>): string {
    if pieces == [] then ""
    else
      var acc := TruthyJoin(pieces[..|pieces| - 1]);
      var x := pieces[|pieces| - 1];
      acc + (if Truthy(acc) then "," + x else x)
  }

  /** When the first piece is truthy the accumulation is the plain comma join. */
  lemma {:induction false} TruthyJoinIsJoin(pieces: seq<string>)
    requires pieces == [] || Truthy(pieces[0])
    ensures TruthyJoin(pieces) == Join(pieces, ",")
    ensures pieces != [] ==> Truthy(TruthyJoin(pieces))
  {
    if pieces != [] {
      var init := pieces[..|pieces| - 1];
      var x := pieces[|pieces| - 1];
      assert pieces == init + [x];
      JoinSnoc(init, x, ",");
      if init != [] {
        assert init[0] == pieces[0];
        TruthyJoinIsJoin(init);
        var acc := TruthyJoin(init);
        assert |acc + "," + x| >= 2;
      }
    }
  }

  /** One more piece: a comma first exactly when the text so far is truthy. */
  lemma TruthyJoinSnoc(pieces: seq<string>, x: string)
    ensures TruthyJoin(pieces + [x]) ==
      var acc := TruthyJoin(pieces); acc + (if Truthy(acc) then "," + x else x)
  {
    assert (pieces + [x])[..|pieces|] == pieces;
  }

  /** With a falsy first piece the second is glued on without a comma: fields '0' and 'a' give '0a'. */
  lemma FalsyFirstPiece(a: string, b: string)
    ensures TruthyJoin([a, b]) == if Truthy(a) then a + "," + b else a + b
  {
    assert [a, b][..1] == [a];
    assert [a][..0] == [];
    assert TruthyJoin([a]) == a;
  }

  /** addslashes applied only when the flag is set. */
  function Escape(v: string, addslashes: bool): string {
    if addslashes then AddSlashes(v) else v
  }

  /** Each value in single quotes, escaped when the flag is set. */
  function ValueTexts(cols: OrderedMap<string>, addslashes: bool): (ts: seq<string>)
    ensures |ts| == |cols|
    ensures forall i :: 0 <= i < |cols| ==> ts[i] == "'" + Escape(cols[i].1, addslashes) + "'"
  {
    seq(|cols|, i requires 0 <= i < |cols| => "'" + Escape(cols[i].1, addslashes) + "'")
  }

  /** Each column as column='value', the value escaped when the flag is set. */
  function Assignments(cols: OrderedMap<string>, addslashes: bool): (ts: seq<string>)
    ensures |ts| == |cols|
    ensures forall i :: 0 <= i < |cols| ==> ts[i] == cols[i].0 + "='" + Escape(cols[i].1, addslashes) + "'"
  {
    seq(|cols|, i requires 0 <= i < |cols| => cols[i].0 + "='" + Escape(cols[i].1, addslashes) + "'")
  }

  /** Quoted values and assignments are never falsy, so those lists are always comma-joined. */
  lemma QuotedListsJoined(cols: OrderedMap<string>, addslashes: bool)
    ensures TruthyJoin(ValueTexts(cols, addslashes)) == Join(ValueTexts(cols, addslashes), ",")
    ensures TruthyJoin(Assignments(cols, addslashes)) == Join(Assignments(cols, addslashes), ",")
  {
    if cols != [] {
      var v := ValueTexts(cols, addslashes)[0];
      var a := Assignments(cols, addslashes)[0];
      assert |v| >= 2 && |a| >= 3;
    }
    TruthyJoinIsJoin(ValueTexts(cols, addslashes));
    TruthyJoinIsJoin(Assignments(cols, addslashes));
  }

  /** One more column extends the column list and the value list by its entries. */
  lemma ListsSnoc(cols: OrderedMap<string>, i: nat, addslashes: bool)
    requires i < |cols|
    ensures Keys(cols[..i + 1]) == Keys(cols[..i]) + [cols[i].0]
    ensures ValueTexts(cols[..i + 1], addslashes) == ValueTexts(cols[..i], addslashes) + ["'" + Escape(cols[i].1, addslashes) + "'"]
    ensures Assignments(cols[..i + 1], addslashes)
      == Assignments(cols[..i], addslashes) + [cols[i].0 + "='" + Escape(cols[i].1, addslashes) + "'"]
  {
  }

  /** The loop insertData and modifyData share: the column list and the quoted value list. */
  method ColumnLists(cols: OrderedMap<string>, addslashes: bool) returns (fields: string, values: string)
    ensures fields == TruthyJoin(Keys(cols))
    ensures values == Join(ValueTexts(cols, addslashes), ",")
  {
    fields, values := "", "";
    var i := 0;
    while i < |cols|
      invariant 0 <= i <= |cols|
      invariant fields == TruthyJoin(Keys(cols[..i]))
      invariant values == TruthyJoin(ValueTexts(cols[..i], addslashes))
    {
      var (f, v) := cols[i];
      ListsSnoc(cols, i, addslashes);
      TruthyJoinSnoc(Keys(cols[..i]), f);
      TruthyJoinSnoc(ValueTexts(cols[..i], addslashes), "'" + Escape(v, addslashes) + "'");
      fields := fields + (if Truthy(fields) then "," + f else f);
      if addslashes {
        v := AddSlashes(v);
      }
      var quoted := "'" + v + "'";
      values := values + (if Truthy(values) then "," + quoted else quoted);
      i := i + 1;
    }
    assert cols[..i] == cols;
    QuotedListsJoined(cols, addslashes);
  }

  /** The loop of updateData: the column='value' list. */
  method AssignmentList(cols: OrderedMap<string>, addslashes: bool) returns (fields: string)
    ensures fields == Join(Assignments(cols, addslashes), ",")
  {
    fields := "";
    var i := 0;
    while i < |cols|
      invariant 0 <= i <= |cols|
      invariant fields == TruthyJoin(Assignments(cols[..i], addslashes))
    {
      var (f, v) := cols[i];
      ListsSnoc(cols, i, addslashes);
      TruthyJoinSnoc(Assignments(cols[..i], addslashes), f + "='" + Escape(v, addslashes) + "'");
      if addslashes {
        v := AddSlashes(v);
      }
      var assignment := f + "='" + v + "'";
      fields := fields + (if Truthy(fields) then "," + assignment else assignment);
      i := i + 1;
    }
    assert cols[..i] == cols;
    QuotedListsJoined(cols, addslashes);
  }

  // ---------------------------------------------------------------- selection arguments

  /** The argument of selAll and selRow: false (the default), an int or a string. */
  datatype Arg = BoolArg(b: bool) | IntArg(i: int) | StringArg(s: string)

  predicate ArgTruthy(a: Arg) {
    match a
    case BoolArg(b) => b
    case IntArg(i) => i != 0
    case StringArg(s) => Truthy(s)
  }

  /** The argument's text when concatenated. */
  function ArgText(a: Arg): string {
    match a
    case BoolArg(b) => if b then "1" else ""
    case IntArg(i) => IntToString(i)
    case StringArg(s) => s
  }

  /** is_numeric: ints are, booleans are not, strings by their form. */
  predicate ArgNumeric(a: Arg) {
    match a
    case BoolArg(_) => false
    case IntArg(_) => true
    case StringArg(s) => IsNumericString(s)
  }

  // ---------------------------------------------------------------- the model object

  /** A model: its class name, its connection's table prefix, its key column, and the table names. */
  class Model {
    const className: string
    const tablepre: string
    const key: string
    var tablename: string
    var table: string

    /** A model whose class may preset `tablename` and `key` (the base class has '' and 'id'). */
    constructor (className: string, tablepre: string, key: string, tablename: string)
      ensures this.className == className && this.tablepre == tablepre && this.key == key
      ensures this.tablename == tablename && table == ""
    {
      this.className := className;
      this.tablepre := tablepre;
      this.key := key;
      this.tablename := tablename;
      table := "";
    }

    /** get_thisTable: a preset table name is kept, an empty one derived from the class name; the table gets the prefix. */
    method GetThisTable()
      modifies this`tablename, this`table
      ensures tablename == if old(tablename) == "" then DefaultTableName(className) else old(tablename)
      ensures old(tablename) == "" && '\\' in className ==> tablename == DefaultTableNameAsWritten(className)
      ensures table == tablepre + tablename
    {
      if '\\' in className {
        ShortNameNamespaced(className);
      }
      if tablename == "" {
        tablename := ReplaceAll(ShortName(className), "Model", "");
      }
      table := tablepre + tablename;
    }

    /** tbname: the prefixed table name. */
    method Tbname() returns (t: string)
      ensures t == table
    {
      t := table;
    }

    /**
     * insertData: INSERT INTO table (columns) VALUES ('values'), the values
     * escaped when the flag is set; columns and values in the same order.
     */
    method InsertData(cols: OrderedMap<string>, addslashes: bool) returns (sql: string)
      ensures sql == "INSERT INTO " + table + " (" + TruthyJoin(Keys(cols)) + ") VALUES ("
        + Join(ValueTexts(cols, addslashes), ",") + ")"
      ensures cols == [] || Truthy(cols[0].0) ==>
        sql == "INSERT INTO " + table + " (" + Join(Keys(cols), ",") + ") VALUES ("
          + Join(ValueTexts(cols, addslashes), ",") + ")"
    {
      var fields, values := ColumnLists(cols, addslashes);
      sql := "INSERT INTO " + table + " (" + fields + ") VALUES (" + values + ")";
      if cols == [] || Truthy(cols[0].0) {
        TruthyJoinIsJoin(Keys(cols));
      }
    }

    /**
     * updateData: UPDATE table SET column='value',... WHERE key=<the key's
     * value>, the key's value unquoted and unescaped, and empty when the
     * columns lack the key.
     */
    method UpdateData(cols: OrderedMap<string>, addslashes: bool) returns (sql: string)
      ensures sql == "UPDATE " + table + " SET " + Join(Assignments(cols, addslashes), ",")
        + " WHERE " + key + "=" + (match Lookup(cols, key) case Some(v) => v case None => "")
    {
      var fields := AssignmentList(cols, addslashes);
      var keyValue := match Lookup(cols, key) case Some(v) => v case None => "";
      sql := "UPDATE " + table + " SET " + fields + " WHERE " + key + "=" + keyValue;
    }

    /** modifyData: REPLACE INTO table (columns) VALUES ('values'), never escaped. */
    method ModifyData(cols: OrderedMap<string>) returns (sql: string)
      ensures sql == "REPLACE INTO " + table + " (" + TruthyJoin(Keys(cols)) + ") VALUES ("
        + Join(ValueTexts(cols, false), ",") + ")"
      ensures forall i :: 0 <= i < |cols| ==> ValueTexts(cols, false)[i] == "'" + cols[i].1 + "'"
    {
      var fields, values := ColumnLists(cols, false);
      sql := "REPLACE INTO " + table + " (" + fields + ") VALUES (" + values + ")";
    }

    /** selAll: every row, filtered by the argument only when it is truthy. */
    function SelAll(where: Arg): string
      reads this
    {
      "select * from " + table + " " + (if ArgTruthy(where) then " where " + ArgText(where) else "")
    }

    /** selRow: a numeric argument selects by primary key, anything else as selAll does. */
    function SelRow(where: Arg): string
      reads this
    {
      "select * from " + table + " "
        + (if ArgNumeric(where) then " where `" + key + "`=\"" + ArgText(where) + "\" "
           else if ArgTruthy(where) then " where " + ArgText(where) else "")
    }

    /** A non-numeric argument filters selRow exactly as it filters selAll; a falsy one filters neither. */
    lemma SelRowNonNumeric(where: Arg)
      requires !ArgNumeric(where)
      ensures SelRow(where) == SelAll(where)
      ensures !ArgTruthy(where) ==> SelRow(where) == "select * from " + table + " "
    {
    }

    /** An id selects the row whose key equals it, even 0, which selAll would treat as no filter. */
    lemma SelRowById(id: int)
      ensures SelRow(IntArg(id)) == "select * from " + table + " " + (" where `" + key + "`=\"" + IntToString(id) + "\" ")
      ensures id == 0 ==> SelAll(IntArg(id)) == "select * from " + table + " "
    {
    }

    /** The decimal text of an id selects the same row as the id. */
    lemma SelRowByIdText(id: int)
      ensures SelRow(StringArg(IntToString(id))) == SelRow(IntArg(id))
    {
      IntTextIsNumeric(id);
    }
  }
}
