/** The two SQL statements of a log format, built in buffers of precomputed length. */
module SqlText {

  const NUL: char := '\0'

  /** A column as the table declares it. */
  datatype Declaration = Declaration(name: string, sqlType: string)

  // ------------------------------------------------------------- specification

  /** "?,?,?": one mark per column. */
  function Marks(n: nat): string {
    if n == 0 then "" else if n == 1 then "?" else Marks(n - 1) + ",?"
  }

  function InsertHead(table: string): string {
    "INSERT INTO " + table + " VALUES ("
  }

  function InsertText(table: string, n: nat): string {
    InsertHead(table) + Marks(n) + ")"
  }

  function Declare(d: Declaration): string {
    d.name + " " + d.sqlType
  }

  /** Declarations that are all followed by another one. */
  function Leading(ds: seq<Declaration>): string {
    if ds == [] then "" else Leading(ds[..|ds| - 1]) + Declare(ds[|ds| - 1]) + ", "
  }

  function Join(ds: seq<Declaration>): string
    requires ds != []
  {
    Leading(ds[..|ds| - 1]) + Declare(ds[|ds| - 1])
  }

  function CreateHead(table: string): string {
    "CREATE TABLE IF NOT EXISTS " + table + " ("
  }

  function CreateText(table: string, ds: seq<Declaration>): string
    requires ds != []
  {
    CreateHead(table) + Join(ds) + ")"
  }

  /** A declaration is the name, a space, and the type. */
  lemma DeclareShape(d: Declaration)
    ensures var t := Declare(d);
            && |t| == |d.name| + 1 + |d.sqlType|
            && (forall i | 0 <= i < |d.name| :: t[i] == d.name[i])
            && t[|d.name|] == ' '
            && forall i | 0 <= i < |d.sqlType| :: t[|d.name| + 1 + i] == d.sqlType[i]
  {
  }

  /** The two statements of a small format, letter by letter. */
  lemma SmallCreateTable()
    ensures var ds := [Declaration("a", "REAL"), Declaration("b", "TEXT")];
            CreateText("t", ds) == "CREATE TABLE IF NOT EXISTS t (a REAL, b TEXT)"
  {
    hide CreateHead, Declare, Leading;
    var a, b := Declaration("a", "REAL"), Declaration("b", "TEXT");
    assert CreateHead("t") == "CREATE TABLE IF NOT EXISTS t (" by {
      SmallHead();
    }
    assert Join([a, b]) == "a REAL, b TEXT" by {
      SmallJoin(a, b);
    }
  }

  lemma SmallHead()
    ensures CreateHead("t") == "CREATE TABLE IF NOT EXISTS t ("
  {
  }

  lemma SmallJoin(a: Declaration, b: Declaration)
    requires a == Declaration("a", "REAL") && b == Declaration("b", "TEXT")
    ensures Join([a, b]) == "a REAL, b TEXT"
  {
    assert [a, b][..1] == [a] && [a][..0] == [];
    assert Leading([a]) == "a REAL, ";
  }

  lemma SmallInsert()
    ensures InsertText("t", 2) == "INSERT INTO t VALUES (?,?)"
  {
    assert Marks(2) == "?,?";
  }

  /** Question marks at even positions, commas between them. */
  lemma {:induction false} MarksAlternate(n: nat)
    requires 1 <= n
    ensures |Marks(n)| == 2 * n - 1
    ensures forall k | 0 <= k < |Marks(n)| :: Marks(n)[k] == if k % 2 == 0 then '?' else ','
  {
    if n > 1 {
      MarksAlternate(n - 1);
    }
  }

  function Count(c: char, s: string): nat {
    if s == "" then 0 else Count(c, s[..|s| - 1]) + if s[|s| - 1] == c then 1 else 0
  }

  /** There are exactly as many placeholders as columns. */
  lemma {:induction false} OneMarkPerColumn(n: nat)
    ensures Count('?', Marks(n)) == n
  {
    if n == 1 {
      assert "?"[..0] == "";
    } else if n > 1 {
      OneMarkPerColumn(n - 1);
      var m := Marks(n - 1);
      assert (m + ",?")[..|m| + 1] == m + ",";
      assert (m + ",")[..|m|] == m;
    }
  }

  // ------------------------------------------------------------------ builders

  /** Copies `s` to `buf` at `at`. */
  method Put(buf: array<char>, at: nat, s: string) returns (end: nat)
    requires at + |s| <= buf.Length
    modifies buf
    ensures end == at + |s|
    ensures buf[..end] == old(buf[..at]) + s
    ensures forall k | end <= k < buf.Length :: buf[k] == old(buf[k])
  {
    forall k | 0 <= k < |s| {
      buf[at + k] := s[k];
    }
    end := at + |s|;
  }

  /** Copies `s` to a zeroed buffer; the length found then is that of `s` up to its first NUL. */
  method PutAndMeasure(buf: array<char>, s: string) returns (j: nat)
    requires |s| < buf.Length && forall k | 0 <= k < buf.Length :: buf[k] == NUL
    modifies buf
    ensures buf[..|s|] == s && forall k | |s| <= k < buf.Length :: buf[k] == NUL
    ensures j <= |s| && (NUL in s <==> j < |s|) && (NUL in s ==> s[j] == NUL)
  {
    j := Put(buf, 0, s);
    j := 0;
    while buf[j] != NUL
      invariant j <= |s| && NUL !in s[..j]
      decreases |s| - j
    {
      assert buf[j] == buf[..|s|][j];
      assert s[..j + 1] == s[..j] + [s[j]];
      j := j + 1;
    }
    assert j < |s| ==> buf[j] == buf[..|s|][j];
    assert s[..|s|] == s;
  }

  /** Writes marks and commas in turn, telling from the previous byte which one is next. */
  method FillMarks(buf: array<char>, start: nat, end: nat)
    requires 1 <= start <= end < buf.Length
    modifies buf
    ensures forall k | 0 <= k < start || end < k < buf.Length :: buf[k] == old(buf[k])
    ensures buf[end] == ')'
    ensures forall k | start <= k < end :: buf[k] == '?' || buf[k] == ','
    ensures buf[start - 1] == '?' ==>
              forall k | start <= k < end :: buf[k] == if (k - start) % 2 == 0 then ',' else '?'
  {
    var j := start;
    var i := j;
    while i < end
      invariant start <= i == j <= end
      invariant forall k | 0 <= k < start || j <= k < buf.Length :: buf[k] == old(buf[k])
      invariant forall k | start <= k < j :: buf[k] == '?' || buf[k] == ','
      invariant buf[start - 1] == '?' ==>
                  && (buf[j - 1] == '?' <==> (j - start) % 2 == 0)
                  && forall k | start <= k < j :: buf[k] == if (k - start) % 2 == 0 then ',' else '?'
    {
      if buf[j - 1] == '?' {
        buf[j] := ',';
      } else {
        buf[j] := '?';
      }
      j := j + 1;
      i := i + 1;
    }
    buf[j] := ')';
  }

  lemma InsertHeadShape(table: string)
    ensures |InsertHead(table)| == 21 + |table| && InsertHead(table)[0] == 'I'
    ensures NUL in InsertHead(table) <==> NUL in table
  {
    assert NUL !in "INSERT INTO " && NUL !in " VALUES (";
  }

  /**
   * Builds the INSERT statement in a buffer of exactly its length plus a terminating NUL. The
   * text is right for every table name without a NUL, and for no other one.
   */
  method SqlInsert(table: string, n: nat) returns (sql: string, buf: array<char>)
    requires 1 <= n
    ensures fresh(buf) && buf.Length == |sql| + 1 && buf[..] == sql + [NUL]
    ensures |sql| == |InsertText(table, n)|
    ensures sql == InsertText(table, n) <==> NUL !in table
  {
    hide InsertHead;
    MarksAlternate(n);
    InsertHeadShape(table);
    var len := 12 + |table| + 9 + n + (n - 1) + 1;
    buf := new char[len + 1](_ => NUL);
    var head := InsertHead(table) + "?";
    var j := PutAndMeasure(buf, head);
    assert NUL in table ==> NUL in InsertHead(table) && InsertHead(table) <= head;
    ghost var first := buf[..j];
    assert first == head[..j];
    FillMarks(buf, j, len - 1);
    sql := buf[..len];
    assert buf[..] == sql + [buf[len]];
    assert sql[..j] == first;
    InsertIsRight(sql, table, n, j);
  }

  lemma InsertIsRight(sql: string, table: string, n: nat, j: nat)
    requires 1 <= n && 1 <= j <= |InsertHead(table)| + 1
    requires |sql| == |InsertHead(table)| + 2 * n
    requires sql[..j] == (InsertHead(table) + "?")[..j] && sql[|sql| - 1] == ')'
    requires forall k | j <= k < |sql| - 1 :: sql[k] == '?' || sql[k] == ','
    requires sql[j - 1] == '?' ==>
               forall k | j <= k < |sql| - 1 :: sql[k] == if (k - j) % 2 == 0 then ',' else '?'
    requires NUL !in table ==> j == |InsertHead(table)| + 1
    requires NUL in table ==> j < |InsertHead(table)| && InsertHead(table)[j] == NUL
    ensures |sql| == |InsertText(table, n)|
    ensures sql == InsertText(table, n) <==> NUL !in table
  {
    hide InsertHead;
    MarksAlternate(n);
    var head := InsertHead(table);
    var text := InsertText(table, n);
    assert text[|head|..|text| - 1] == Marks(n);
    if NUL in table {
      assert text[j] == head[j];
    } else {
      assert sql[|head|] == sql[..j][|head|];
      forall k | 0 <= k < |sql|
        ensures sql[k] == text[k]
      {
        if k < |head| {
          assert sql[k] == sql[..j][k];
        } else if k < |sql| - 1 {
          assert text[k] == Marks(n)[k - |head|];
        }
      }
    }
  }

  lemma CreateHeadShape(table: string)
    ensures |CreateHead(table)| == 29 + |table|
    ensures NUL in CreateHead(table) <==> NUL in table
  {
    assert NUL !in "CREATE TABLE IF NOT EXISTS " && NUL !in " (";
  }

  /**
   * Builds the CREATE TABLE statement. The text is right for every table name without a NUL and,
   * if the columns have none either, for no other one.
   */
  method SqlCreateTable(table: string, ds: seq<Declaration>) returns (sql: string, buf: array<char>)
    requires ds != []
    ensures fresh(buf) && buf.Length == |sql| + 1
    ensures |sql| == |CreateText(table, ds)|
    ensures NUL !in table ==> sql == CreateText(table, ds) && buf[..] == sql + [NUL]
    ensures NUL !in Join(ds) ==> (sql == CreateText(table, ds) <==> NUL !in table)
  {
    hide CreateHead;
    CreateHeadShape(table);
    var len := 27 + |table| + 2;
    var i := 0;
    while i < |ds|
      invariant 0 <= i <= |ds|
      invariant len == 29 + |table| + if i < |ds| then |Leading(ds[..i])| else |Join(ds)|
    {
      assert ds[..i + 1][..i] == ds[..i];
      len := len + |ds[i].name| + 1 + |ds[i].sqlType|;
      if i < |ds| - 1 {
        len := len + 2;
      }
      i := i + 1;
    }
    len := len + 1;
    buf := new char[len + 1](_ => NUL);
    var j := PutAndMeasure(buf, CreateHead(table));
    WriteDeclarations(buf, j, ds);
    sql := buf[..len];
    assert NUL in table ==> sql[j] == Join(ds)[0] && CreateText(table, ds)[j] == CreateHead(table)[j];
  }

  /** A declaration and the comma after it, if any, end no later than the whole list. */
  lemma {:induction false} Fits(ds: seq<Declaration>, i: nat)
    requires i < |ds|
    ensures |Leading(ds[..i])| + |Declare(ds[i])| + (if i < |ds| - 1 then 2 else 0) <= |Join(ds)|
  {
    if i < |ds| - 1 {
      var front := ds[..|ds| - 1];
      assert front[..i] == ds[..i];
      Fits(front, i);
      assert Leading(front) == Join(front) + ", ";
    }
  }

  /** One declaration and what follows it. */
  method PutDeclaration(buf: array<char>, at: nat, d: Declaration, after: string) returns (end: nat)
    requires at + |Declare(d)| + |after| <= buf.Length
    modifies buf
    ensures end == at + |Declare(d)| + |after|
    ensures buf[..end] == old(buf[..at]) + Declare(d) + after
    ensures forall k | end <= k < buf.Length :: buf[k] == old(buf[k])
  {
    end := Put(buf, at, d.name);
    end := Put(buf, end, " ");
    end := Put(buf, end, d.sqlType);
    end := Put(buf, end, after);
  }

  /** Writes the declarations and the closing parenthesis from `start` on. */
  method WriteDeclarations(buf: array<char>, start: nat, ds: seq<Declaration>)
    requires ds != [] && start + |Join(ds)| + 1 <= buf.Length
    modifies buf
    ensures var end := start + |Join(ds)| + 1;
            && buf[..end] == old(buf[..start]) + Join(ds) + ")"
            && buf[end..] == old(buf[end..])
  {
    hide Declare;
    ghost var head := buf[..start];
    var i, j := 0, start;
    while i < |ds| - 1
      invariant 0 <= i < |ds|
      invariant j == start + |Leading(ds[..i])|
      invariant j <= buf.Length && buf[..j] == head + Leading(ds[..i])
      invariant forall k | start + |Join(ds)| + 1 <= k < buf.Length :: buf[k] == old(buf[k])
    {
      Fits(ds, i);
      j := PutDeclaration(buf, j, ds[i], ", ");
      assert ds[..i + 1][..i] == ds[..i];
      i := i + 1;
    }
    j := PutDeclaration(buf, j, ds[i], ")");
  }
}
