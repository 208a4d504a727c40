/** The format directive: checking its arguments and compiling them to columns. */
module Format {
  import opened Values
  import Connection
  import SqlText
  import opened Variables

  // -------------------------------------------------------- what arguments mean

  predicate IsVariable(s: string) {
    s != "" && s[0] == '$'
  }

  /** A column as it is written: a variable, and its type if one follows. */
  datatype Item = Item(name: string, given: Option<string>)

  /** The argument at `i`, together with the next one if that can be its type. */
  function ItemAt(args: seq<string>, i: nat): Item
    requires i < |args| && IsVariable(args[i])
  {
    Item(args[i][1..],
         if i + 1 < |args| && args[i + 1] != "" && !IsVariable(args[i + 1]) then Some(args[i + 1]) else None)
  }

  /** The columns before argument `k`. Two arguments, the directive and the table, come first. */
  function ItemsUpTo(args: seq<string>, k: nat): seq<Item>
    requires k <= |args|
  {
    if k <= 2 then []
    else ItemsUpTo(args, k - 1) + if IsVariable(args[k - 1]) then [ItemAt(args, k - 1)] else []
  }

  function Items(args: seq<string>): seq<Item> {
    ItemsUpTo(args, |args|)
  }

  /** Writing a column: the variable, and then its type if it has one. */
  function PrintItem(item: Item): seq<string> {
    ["$" + item.name] + if item.given.Some? then [item.given.value] else []
  }

  function Print(items: seq<Item>): seq<string> {
    if items == [] then [] else Print(items[..|items| - 1]) + PrintItem(items[|items| - 1])
  }

  /** A type that an argument can give: it must not look like a variable. */
  predicate Printable(item: Item) {
    item.given.Some? ==> item.given.value != "" && !IsVariable(item.given.value)
  }

  /** Arguments behind a variable do not change what stands before it. */
  lemma {:induction false} ItemsOfPrefix(args: seq<string>, more: seq<string>, k: nat)
    requires k <= |args| && (more != [] ==> IsVariable(more[0]))
    ensures ItemsUpTo(args + more, k) == ItemsUpTo(args, k)
  {
    if k > 2 {
      ItemsOfPrefix(args, more, k - 1);
    }
  }

  /** One more column behind the others is read as just that. */
  lemma ParseOneMore(args: seq<string>, item: Item)
    requires 2 <= |args| && Printable(item)
    ensures Items(args + PrintItem(item)) == Items(args) + [item]
  {
    var all, k := args + PrintItem(item), |args|;
    ItemsOfPrefix(args, PrintItem(item), k);
    assert all[k] == "$" + item.name && ItemAt(all, k) == item;
    assert ItemsUpTo(all, k + 1) == Items(args) + [item];
    if item.given.Some? {
      assert all[k + 1] == item.given.value;
      assert ItemsUpTo(all, k + 2) == ItemsUpTo(all, k + 1);
    }
  }

  /** Reading back what was written gives the same columns, with or without types. */
  lemma {:induction false} ParseOfPrint(head: seq<string>, items: seq<Item>)
    requires |head| == 2 && forall item | item in items :: Printable(item)
    ensures Items(head + Print(items)) == items
    decreases |items|
  {
    hide Printable, PrintItem, IsVariable, ItemAt;
    if items == [] {
      assert head + Print(items) == head;
    } else {
      var init, item := items[..|items| - 1], items[|items| - 1];
      ParseOfPrint(head, init);
      assert item in items;
      ParseOneMore(head + Print(init), item);
      assert head + Print(items) == (head + Print(init)) + PrintItem(item);
    }
  }

  // ---------------------------------------------------------------- validation

  /** No argument is a type unless a variable precedes it. */
  predicate NoDanglingType(args: seq<string>) {
    forall i | 2 <= i < |args| && !IsVariable(args[i]) :: IsVariable(args[i - 1])
  }

  /** What the directive demands of its arguments. */
  predicate Accepted(args: seq<string>, formats: seq<string>, combinedInit: bool)
    requires 2 <= |args|
  {
    && !combinedInit
    && "" !in args
    && args[1] != "combined"
    && args[1] !in formats
    && Items(args) != []
    && NoDanglingType(args)
  }

  datatype Verdict =
    | Fine
    | TooLate
    | EmptyArgument(position: nat)
    | Reserved
    | Duplicate
    | NoVariables
    | DanglingType(position: nat)

  /** How many variables the directive names: as many as it gets columns. */
  method NVariables(args: seq<string>) returns (n: nat)
    ensures n == |Items(args)|
    ensures n > 0 <==> exists k :: 2 <= k < |args| && args[k] != "" && args[k][0] == '$'
  {
    n := 0;
    for i := 0 to |args|
      invariant n == |ItemsUpTo(args, i)|
      invariant n > 0 <==> exists k :: 2 <= k < i && args[k] != "" && args[k][0] == '$'
    {
      if i >= 2 && |args[i]| >= 1 && args[i][0] == '$' {
        n := n + 1;
      }
    }
  }

  /** The checks of the directive, in order; each error says what is wrong. */
  method Check(args: seq<string>, formats: seq<string>, combinedInit: bool) returns (r: Verdict)
    requires 2 <= |args|
    ensures r == Fine <==> Accepted(args, formats, combinedInit)
    ensures r == Fine <==>
              && !combinedInit
              && (forall k | 0 <= k < |args| :: args[k] != "")
              && args[1] != "combined" && args[1] !in formats
              && (exists k :: 2 <= k < |args| && args[k][0] == '$')
              && (forall k | 2 <= k < |args| && args[k][0] != '$' :: args[k - 1][0] == '$')
    ensures r == TooLate <==> combinedInit
    ensures r.EmptyArgument? ==> r.position < |args| && args[r.position] == "" && "" !in args[..r.position]
    ensures r == Reserved ==> args[1] == "combined"
    ensures r == Duplicate ==> args[1] in formats
    ensures r == NoVariables ==> Items(args) == []
    ensures r.DanglingType? ==>
              && 2 <= r.position < |args|
              && !IsVariable(args[r.position]) && !IsVariable(args[r.position - 1])
  {
    if combinedInit {
      return TooLate;
    }
    for i := 0 to |args|
      invariant "" !in args[..i]
    {
      if |args[i]| == 0 {
        return EmptyArgument(i);
      }
    }
    if args[1] == "combined" {
      return Reserved;
    }
    for i := 0 to |formats|
      invariant args[1] !in formats[..i]
    {
      if args[1] == formats[i] {
        return Duplicate;
      }
    }
    var n := NVariables(args);
    if n == 0 {
      return NoVariables;
    }
    for i := 0 to |args|
      invariant forall k | 2 <= k < i && !IsVariable(args[k]) :: IsVariable(args[k - 1])
    {
      if i >= 2 && args[i][0] != '$' && args[i - 1][0] != '$' {
        return DanglingType(i);
      }
    }
    return Fine;
  }

  /** What the columns before `k` account for, up to a type that is still to come. */
  lemma {:induction false} UsedUpTo(args: seq<string>, k: nat)
    requires 2 <= k <= |args| && "" !in args && NoDanglingType(args)
    requires 2 < |args| ==> IsVariable(args[2])
    ensures Print(ItemsUpTo(args, k)) ==
            args[2..k] + if 2 < k < |args| && !IsVariable(args[k]) then [args[k]] else []
  {
    hide IsVariable, Print, PrintItem, ItemAt, NoDanglingType;
    if k == 2 {
      PrintNone();
    } else {
      var before := ItemsUpTo(args, k - 1);
      UsedUpTo(args, k - 1);
      assert args[2..k] == args[2..k - 1] + [args[k - 1]];
      if IsVariable(args[k - 1]) {
        PrintOneMore(before, ItemAt(args, k - 1));
        PrintItemAt(args, k - 1);
      } else {
        assert ItemsUpTo(args, k) == before;
        assert k < |args| ==> IsVariable(args[k]) by {
          PrecededByVariable(args, k);
        }
      }
    }
  }

  lemma PrintNone()
    ensures Print([]) == []
  {
  }

  lemma PrintOneMore(items: seq<Item>, item: Item)
    ensures Print(items + [item]) == Print(items) + PrintItem(item)
  {
    assert (items + [item])[..|items|] == items;
  }

  lemma PrecededByVariable(args: seq<string>, i: nat)
    requires NoDanglingType(args)
    ensures 2 <= i < |args| ==> IsVariable(args[i]) || IsVariable(args[i - 1])
  {
    hide IsVariable;
  }

  lemma PrintItemAt(args: seq<string>, i: nat)
    requires i < |args| && IsVariable(args[i]) && "" !in args
    ensures PrintItem(ItemAt(args, i)) ==
            [args[i]] + if i + 1 < |args| && !IsVariable(args[i + 1]) then [args[i + 1]] else []
  {
    assert args[i] == "$" + args[i][1..];
    assert i + 1 < |args| ==> args[i + 1] in args;
  }

  lemma {:induction false} PrintStartsWithVariable(items: seq<Item>)
    requires items != []
    ensures Print(items) != [] && IsVariable(Print(items)[0])
    decreases |items|
  {
    if |items| > 1 {
      PrintStartsWithVariable(items[..|items| - 1]);
    } else {
      assert Print(items[..0]) == [];
    }
  }

  /**
   * Exactly when the first argument after the table name is a variable, all arguments of an
   * accepted directive are used once: as a variable, or as the type of the variable before.
   */
  lemma UsedOnceIffFirstIsVariable(args: seq<string>, formats: seq<string>, combinedInit: bool)
    requires 3 <= |args| && Accepted(args, formats, combinedInit)
    ensures Print(Items(args)) == args[2..] <==> IsVariable(args[2])
  {
    if IsVariable(args[2]) {
      UsedUpTo(args, |args|);
      assert args[2..|args|] == args[2..];
    } else {
      PrintStartsWithVariable(Items(args));
    }
  }

  /** An accepted directive whose table name is not like a variable loses no argument. */
  lemma OrdinaryTableUsesAll(args: seq<string>, formats: seq<string>, combinedInit: bool)
    requires 3 <= |args| && Accepted(args, formats, combinedInit) && !IsVariable(args[1])
    ensures Print(Items(args)) == args[2..]
  {
    UsedOnceIffFirstIsVariable(args, formats, combinedInit);
    assert IsVariable(args[2]);
  }

  /** With a table name like a variable, a type without a variable gets through and is ignored. */
  lemma OrphanTypeIsAccepted()
    ensures var args := ["sqlitelog_format", "$t", "INTEGER", "$a"];
            Accepted(args, [], false) && Print(Items(args)) == ["$a"]
  {
    var args := ["sqlitelog_format", "$t", "INTEGER", "$a"];
    assert !IsVariable(args[2]) && IsVariable(args[3]);
    assert ItemsUpTo(args, 2) == [] && ItemsUpTo(args, 3) == [];
    assert ItemsUpTo(args, 4) == [Item("a", None)];
    assert Print([Item("a", None)][..0]) == [] && "$" + "a" == "$a";
  }

  /** Whatever can be written as columns is accepted. */
  lemma PrintedIsAccepted(directive: string, table: string, items: seq<Item>, formats: seq<string>)
    requires items != [] && forall item | item in items :: Printable(item)
    requires directive != "" && table != "" && table != "combined" && table !in formats
    ensures Accepted([directive, table] + Print(items), formats, false)
  {
    ParseOfPrint([directive, table], items);
    PrintedIsWellFormed([directive, table], items);
  }

  lemma {:induction false} PrintedIsWellFormed(head: seq<string>, items: seq<Item>)
    requires |head| == 2 && "" !in head && forall item | item in items :: Printable(item)
    ensures "" !in head + Print(items) && NoDanglingType(head + Print(items))
    decreases |items|
  {
    if items != [] {
      var init, item := items[..|items| - 1], items[|items| - 1];
      PrintedIsWellFormed(head, init);
      assert item in items;
      assert head + Print(items) == (head + Print(init)) + PrintItem(item);
    }
  }

  // --------------------------------------------------------------- compilation

  function ToUpper(c: char): char {
    if 'a' <= c <= 'z' then c - 32 as char else c
  }

  function Upper(s: string): (r: string)
    ensures |r| == |s|
  {
    seq(|s|, i requires 0 <= i < |s| => ToUpper(s[i]))
  }

  lemma UpperIsNoVariable(s: string)
    ensures IsVariable(Upper(s)) <==> IsVariable(s)
  {
  }

  /** The types of columns that are not given one and whose name is in this table. */
  const PRESETS: map<string, string> := map[
    "binary_remote_addr" := "BLOB",
    "body_bytes_sent" := "INTEGER",
    "bytes_sent" := "INTEGER",
    "connection" := "INTEGER",
    "connection_requests" := "INTEGER",
    "connection_time" := "REAL",
    "connections_active" := "INTEGER",
    "connections_reading" := "INTEGER",
    "connections_waiting" := "INTEGER",
    "connections_writing" := "INTEGER",
    "content_length" := "INTEGER",
    "gzip_ratio" := "REAL",
    "limit_rate" := "INTEGER",
    "msec" := "REAL",
    "pid" := "INTEGER",
    "proxy_port" := "INTEGER",
    "proxy_protocol_port" := "INTEGER",
    "proxy_protocol_server_port" := "INTEGER",
    "remote_port" := "INTEGER",
    "request_time" := "REAL",
    "server_port" := "INTEGER",
    "status" := "INTEGER"
  ]

  /** The variables with operations of their own. */
  const SPECIAL: set<string> := {
    "pipe", "time_local", "time_iso8601", "msec", "request_time", "status", "bytes_sent",
    "body_bytes_sent", "request_length"
  }

  datatype Column = Column(name: string, sqlType: string, op: Op, index: nat, binder: Connection.Binder)

  function DefaultType(name: string): string {
    if name in PRESETS then PRESETS[name] else "TEXT"
  }

  function TypeOf(item: Item): string {
    match item.given
    case Some(given) => Upper(given)
    case None => DefaultType(item.name)
  }

  function OpOf(name: string, sqlType: string): Op {
    if sqlType == "BLOB" || name == "binary_remote_addr" then Unescaped
    else if name in SPECIAL then Special
    else Generic
  }

  function BinderOf(sqlType: string): Connection.Binder {
    if sqlType == "BLOB" then Connection.Blob else Connection.Text
  }

  /** What becomes of a column; `index` tells which request variable carries a name. */
  function Compile(item: Item, index: string -> nat): Column {
    Column(item.name, TypeOf(item), OpOf(item.name, TypeOf(item)), index(item.name), BinderOf(TypeOf(item)))
  }

  function CompileAll(items: seq<Item>, index: string -> nat): (columns: seq<Column>)
    ensures |columns| == |items|
  {
    seq(|items|, i requires 0 <= i < |items| => Compile(items[i], index))
  }

  /** The arguments after compilation: types are in upper case. */
  function Uppered(args: seq<string>): (r: seq<string>)
    ensures |r| == |args|
  {
    seq(|args|, i requires 0 <= i < |args| =>
      if i >= 3 && IsVariable(args[i - 1]) && !IsVariable(args[i]) then Upper(args[i]) else args[i])
  }

  lemma CompileNext(args: seq<string>, k: nat, index: string -> nat)
    requires 2 <= k < |args|
    ensures IsVariable(args[k]) ==>
              && ItemsUpTo(args, k + 1) == ItemsUpTo(args, k) + [ItemAt(args, k)]
              && CompileAll(ItemsUpTo(args, k + 1), index)
                 == CompileAll(ItemsUpTo(args, k), index) + [Compile(ItemAt(args, k), index)]
    ensures !IsVariable(args[k]) ==> ItemsUpTo(args, k + 1) == ItemsUpTo(args, k)
  {
    hide IsVariable, Compile, ItemAt;
  }

  /** A type that is given is taken over character by character, small letters as capital ones. */
  lemma GivenTypesAreCapitalized(items: seq<Item>, index: string -> nat, i: nat, j: nat)
    requires i < |items| && items[i].given.Some? && j < |items[i].given.value|
    ensures var given, sqlType := items[i].given.value, CompileAll(items, index)[i].sqlType;
            && |sqlType| == |given|
            && ('a' <= given[j] <= 'z' ==> sqlType[j] as int == given[j] as int - 32)
            && (!('a' <= given[j] <= 'z') ==> sqlType[j] == given[j])
  {
  }

  /** However BLOB is spelled, the column is a blob: bound as one, and written without escaping. */
  lemma BlobInAnySpelling(items: seq<Item>, index: string -> nat, i: nat)
    requires i < |items| && items[i].given.Some? && |items[i].given.value| == 4
    requires var t := items[i].given.value;
             && (t[0] == 'b' || t[0] == 'B') && (t[1] == 'l' || t[1] == 'L')
             && (t[2] == 'o' || t[2] == 'O') && (t[3] == 'b' || t[3] == 'B')
    ensures var c := CompileAll(items, index)[i];
            c.sqlType == "BLOB" && c.binder == Connection.Blob && c.op == Unescaped
  {
    assert Upper(items[i].given.value) == "BLOB";
  }

  /** The arguments that compilation leaves behind: only types, and they in capitals. */
  lemma CapitalizedArguments(args: seq<string>, k: nat, j: nat)
    requires k < |args| && j < |args[k]|
    ensures var isType := k >= 3 && args[k][0] != '$' && args[k - 1] != "" && args[k - 1][0] == '$';
            var left := Uppered(args);
            && |left| == |args| && |left[k]| == |args[k]|
            && (isType && 'a' <= args[k][j] <= 'z' ==> left[k][j] as int == args[k][j] as int - 32)
            && (!(isType && 'a' <= args[k][j] <= 'z') ==> left[k][j] == args[k][j])
  {
  }

  /** The variable decides about name, index and, together with the type, how it is written. */
  lemma HowColumnsAreWritten(item: Item, index: string -> nat)
    ensures var c := Compile(item, index);
            && c.name == item.name && c.index == index(item.name)
            && (c.binder == Connection.Blob <==> c.sqlType == "BLOB")
            && (c.op == Unescaped <==> c.sqlType == "BLOB" || c.name == "binary_remote_addr")
            && (c.op == Special <==>
                  && c.sqlType != "BLOB"
                  && c.name in {"pipe", "time_local", "time_iso8601", "msec", "request_time", "status", "bytes_sent",
                                "body_bytes_sent", "request_length"})
  {
    hide TypeOf;
    assert "binary_remote_addr" !in SPECIAL by {
      assert |"binary_remote_addr"| == 18;
    }
  }

  /** Without a type of its own a column is INTEGER, REAL or BLOB for some variables, and else TEXT. */
  lemma TypesThatAreNotGiven(name: string, index: string -> nat)
    ensures var t := Compile(Item(name, None), index).sqlType;
            && (t == "BLOB" <==> name == "binary_remote_addr")
            && (t == "REAL" <==> name in {"connection_time", "gzip_ratio", "msec", "request_time"})
            && (t == "INTEGER" <==> name in {
                  "body_bytes_sent", "bytes_sent", "connection", "connection_requests", "connections_active",
                  "connections_reading", "connections_waiting", "connections_writing", "content_length", "limit_rate",
                  "pid", "proxy_port", "proxy_protocol_port", "proxy_protocol_server_port", "remote_port",
                  "server_port", "status"})
            && (t == "TEXT" || t == "BLOB" || t == "REAL" || t == "INTEGER")
  {
  }

  /** Columns written out with their types are compiled to the same columns, types in upper case. */
  lemma PrintThenCompile(head: seq<string>, items: seq<Item>, index: string -> nat)
    requires |head| == 2 && forall item | item in items :: Printable(item) && item.given.Some?
    ensures var columns := CompileAll(Items(head + Print(items)), index);
            && |columns| == |items|
            && forall i | 0 <= i < |items| ::
                 && columns[i].name == items[i].name
                 && columns[i].sqlType == Upper(items[i].given.value)
                 && columns[i].binder == BinderOf(Upper(items[i].given.value))
                 && columns[i].index == index(items[i].name)
  {
    hide IsVariable, OpOf, Print, BinderOf, Upper;
    ParseOfPrint(head, items);
  }

  /** Compiling leaves arguments behind that compile to the same columns again. */
  lemma CompiledTwice(args: seq<string>, index: string -> nat)
    ensures CompileAll(Items(Uppered(args)), index) == CompileAll(Items(args), index)
  {
    CompiledTwiceUpTo(args, |args|, index);
  }

  lemma {:induction false} CompiledTwiceUpTo(args: seq<string>, k: nat, index: string -> nat)
    requires k <= |args|
    ensures CompileAll(ItemsUpTo(Uppered(args), k), index) == CompileAll(ItemsUpTo(args, k), index)
  {
    if k > 2 {
      CompiledTwiceUpTo(args, k - 1, index);
      var i := k - 1;
      UpperIsNoVariable(args[i]);
      CompileNext(args, i, index);
      CompileNext(Uppered(args), i, index);
      if IsVariable(args[i]) {
        CompiledTwiceAt(args, i, index);
      }
    }
  }

  lemma CompiledTwiceAt(args: seq<string>, i: nat, index: string -> nat)
    requires 2 <= i < |args| && IsVariable(args[i])
    ensures Uppered(args)[i] == args[i]
    ensures Compile(ItemAt(Uppered(args), i), index) == Compile(ItemAt(args, i), index)
  {
    hide OpOf, BinderOf, DefaultType;
    if i + 1 < |args| && !IsVariable(args[i + 1]) {
      UpperIsNoVariable(args[i + 1]);
      assert Upper(Upper(args[i + 1])) == Upper(args[i + 1]);
    }
  }

  /** Puts one argument in upper case, a character at a time. */
  method UpperInPlace(args: array<string>, i: nat)
    requires i < args.Length
    modifies args
    ensures args[..] == old(args[..])[i := Upper(old(args[i]))]
  {
    ghost var given := args[i];
    for j := 0 to |args[i]|
      invariant |args[i]| == |given|
      invariant forall k | 0 <= k < |given| :: args[i][k] == if k < j then ToUpper(given[k]) else given[k]
      invariant forall k | 0 <= k < args.Length && k != i :: args[k] == old(args[k])
    {
      args[i] := args[i][j := ToUpper(args[i][j])];
    }
    assert args[i] == Upper(given);
  }

  /** A column fails to compile when its variable has no name. */
  method ColInit(name: string, sqlType: string, index: string -> nat) returns (col: Option<Column>)
    ensures col == if name == "" then None
                   else Some(Column(name, sqlType, OpOf(name, sqlType), index(name), BinderOf(sqlType)))
  {
    if name == "" {
      return None;
    }
    var op := Generic;
    if name == "binary_remote_addr" {
      op := Unescaped;
    } else if name in SPECIAL {
      op := Special;
    }
    if sqlType == "BLOB" {
      op := Unescaped;
    }
    return Some(Column(name, sqlType, op, index(name), BinderOf(sqlType)));
  }

  function Declarations(columns: seq<Column>): (ds: seq<SqlText.Declaration>)
    ensures |ds| == |columns|
  {
    seq(|columns|, i requires 0 <= i < |columns| => SqlText.Declaration(columns[i].name, columns[i].sqlType))
  }

  datatype Fmt = Fmt(name: string, columns: seq<Column>, sqlCreate: string, sqlInsert: string)

  /** The arguments while the one at `i` is next: types up to there are in upper case. */
  ghost predicate UpperedTo(now: seq<string>, given: seq<string>, i: nat) {
    && |now| == |given|
    && forall k | 0 <= k < |given| :: now[k] == if k <= i then Uppered(given)[k] else given[k]
  }

  /** Compiles the variable at `i`, and puts the type behind it in upper case. */
  method ColumnAt(args: array<string>, i: nat, index: string -> nat, ghost given: seq<string>)
    returns (col: Option<Column>)
    requires 2 <= i < args.Length && UpperedTo(args[..], given, i) && IsVariable(args[i])
    modifies args
    ensures UpperedTo(args[..], given, i + 1) && IsVariable(given[i])
    ensures var item := ItemAt(given, i);
            col == if item.name == "" then None else Some(Compile(item, index))
  {
    hide DefaultType, OpOf, UpperedTo, Uppered, Upper;
    var name, sqlType := args[i][1..], "TEXT";
    NextArgument(args[..], given, i);
    if i < args.Length - 1 && |args[i + 1]| >= 1 && args[i + 1][0] != '$' {
      UpperInPlace(args, i + 1);
      sqlType := args[i + 1];
    } else {
      sqlType := DefaultType(name);
    }
    col := ColInit(name, sqlType, index);
  }

  /** A variable is the next argument; the one behind it is a type or not. */
  lemma NextArgument(now: seq<string>, given: seq<string>, i: nat)
    requires 2 <= i < |now| && UpperedTo(now, given, i) && IsVariable(now[i])
    ensures |now| == |given| && now[i] == given[i]
    ensures i + 1 < |given| ==>
              && now[i + 1] == given[i + 1]
              && (!IsVariable(now[i + 1]) ==> UpperedTo(now[i + 1 := Upper(now[i + 1])], given, i + 1))
    ensures i + 1 == |given| || now[i + 1] == "" || IsVariable(now[i + 1]) ==> UpperedTo(now, given, i + 1)
  {
    UpperIsNoVariable(given[i]);
    assert Upper("") == "";
  }

  lemma {:induction false} EarlierItems(args: seq<string>, k: nat)
    requires k <= |args|
    ensures ItemsUpTo(args, k) <= Items(args)
    decreases |args| - k
  {
    if k < |args| {
      EarlierItems(args, k + 1);
    }
  }

  lemma StillAVariable(now: seq<string>, given: seq<string>, i: nat)
    requires i < |given| && UpperedTo(now, given, i)
    ensures IsVariable(now[i]) <==> IsVariable(given[i])
    ensures !IsVariable(given[i]) ==> UpperedTo(now, given, i + 1)
  {
    UpperIsNoVariable(given[i]);
  }

  lemma UpperedAtEnds(given: seq<string>, now: seq<string>)
    requires 2 <= |given|
    ensures UpperedTo(given, given, 2)
    ensures UpperedTo(now, given, |given|) ==> now == Uppered(given) && now[1] == given[1]
  {
  }

  lemma NoItemsYet(args: seq<string>)
    requires 2 <= |args|
    ensures ItemsUpTo(args, 2) == [] && Items(args) == ItemsUpTo(args, |args|)
  {
  }

  /**
   * Compiles a directive. Types are put in upper case where they stand, among the arguments. It
   * fails exactly when a variable is a lone "$"; otherwise there is one column per variable.
   */
  method FmtInit(args: array<string>, index: string -> nat) returns (fmt: Option<Fmt>)
    requires 2 <= args.Length && Items(args[..]) != []
    modifies args
    ensures fmt.Some? <==> forall item | item in old(Items(args[..])) :: item.name != ""
    ensures fmt.Some? ==>
              && args[..] == Uppered(old(args[..]))
              && fmt.value.name == old(args[1])
              && fmt.value.columns == CompileAll(old(Items(args[..])), index)
    ensures fmt.Some? && SqlText.NUL !in fmt.value.name ==>
              && fmt.value.sqlCreate == SqlText.CreateText(fmt.value.name, Declarations(fmt.value.columns))
              && fmt.value.sqlInsert == SqlText.InsertText(fmt.value.name, |fmt.value.columns|)
  {
    hide *;
    ghost var given := args[..];
    UpperedAtEnds(given, given);
    NoItemsYet(given);
    var n := NVariables(args[..]);
    var columns: seq<Column> := [];
    var i := 2;
    while i < args.Length
      invariant 2 <= i <= args.Length
      invariant UpperedTo(args[..], given, i)
      invariant columns == CompileAll(ItemsUpTo(given, i), index)
      invariant forall item | item in ItemsUpTo(given, i) :: item.name != ""
    {
      StillAVariable(args[..], given, i);
      EarlierItems(given, i + 1);
      CompileNext(given, i, index);
      if IsVariable(args[i]) {
        var col := ColumnAt(args, i, index, given);
        if col == None {
          assert ItemAt(given, i) in ItemsUpTo(given, i + 1);
          return None;
        }
        columns := columns + [col.value];
      }
      i := i + 1;
    }
    UpperedAtEnds(given, args[..]);
    var sqlCreate, createBuf := SqlText.SqlCreateTable(args[1], Declarations(columns));
    var sqlInsert, insertBuf := SqlText.SqlInsert(args[1], n);
    return Some(Fmt(args[1], columns, sqlCreate, sqlInsert));
  }
}
