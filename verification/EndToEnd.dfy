/** From a directive to bound parameters: one number of columns all the way. */
module EndToEnd {
  import opened Values
  import opened Format
  import opened Variables
  import Buffer
  import Connection
  import Lists
  import SqlText

  /** What a request brings: its indexed variables, and what the specialized operations print. */
  datatype Request = Request(vars: seq<Variable?>, printed: string -> seq<byte>)

  /** What a column reads of a request. */
  function SourceOf(c: Column, request: Request): Source {
    Source(c.op, c.index, request.printed(c.name))
  }

  function Sources(columns: seq<Column>, request: Request): (sources: seq<Source>)
    ensures |sources| == |columns|
  {
    seq(|columns|, i requires 0 <= i < |columns| => SourceOf(columns[i], request))
  }

  function Binders(columns: seq<Column>): (binders: seq<Connection.Binder>)
    ensures |binders| == |columns|
  {
    seq(|columns|, i requires 0 <= i < |columns| => columns[i].binder)
  }

  /** The request has a value slot for every column. */
  predicate Serves(request: Request, columns: seq<Column>) {
    forall i | 0 <= i < |columns| :: columns[i].index < |request.vars|
  }

  function EntryFor(columns: seq<Column>, request: Request): (row: Row)
    requires Serves(request, columns)
    ensures |row| == |columns|
  {
    EntryOf(Sources(columns, request), request.vars)
  }

  /** The entries of some requests, in the order in which they were queued. */
  function Queue(columns: seq<Column>, requests: seq<Request>): (rows: seq<Row>)
    requires forall r | 0 <= r < |requests| :: Serves(requests[r], columns)
    ensures |rows| == |requests|
  {
    seq(|requests|, r requires 0 <= r < |requests| => EntryFor(columns, requests[r]))
  }

  /**
   * For an accepted directive the number of columns is at least one, and it is the number of
   * variables, of marks in the INSERT statement, of values in an entry, of values in each node of
   * a shared buffer that holds the entries, of values in every part that draining this buffer
   * produces, and of parameters bound for that part.
   */
  lemma OneArity(args: seq<string>, formats: seq<string>, index: string -> nat, requests: seq<Request>,
                 buffer: Buffer.Buffer)
    requires 3 <= |args| && Accepted(args, formats, false)
    requires var columns := CompileAll(Items(args), index);
             && requests != [] && (forall r | 0 <= r < |requests| :: Serves(requests[r], columns))
             && buffer.Valid() && buffer.Contents() == Queue(columns, requests)
    ensures var columns := CompileAll(Items(args), index);
            var n := |columns|;
            var drained := Lists.Relist(n, buffer.Contents());
            && 1 <= n == |Items(args)|
            && SqlText.Count('?', SqlText.Marks(n)) == n
            && |buffer.nodes| == |requests|
            && (forall r | 0 <= r < |requests| :: |buffer.nodes[r].record.elts| == n)
            && |drained| == |requests|
            && forall r | 0 <= r < |requests| ::
                 |drained[r]| == n && |Connection.Bindings(Binders(columns), drained[r])| == n
  {
    hide Items, Compile, Accepted, EntryFor, Serves, SqlText.Marks, SqlText.Count, Lists.Relist;
    var columns := CompileAll(Items(args), index);
    assert columns != [] by {
      SomeColumn(args, formats);
    }
    SqlText.OneMarkPerColumn(|columns|);
    Lists.RelistArity(|columns|, buffer.Contents());
    forall r | 0 <= r < |requests|
      ensures |buffer.nodes[r].record.elts| == |columns|
    {
      assert buffer.Contents()[r] == Buffer.NodeRow(buffer.nodes[r]);
    }
  }

  lemma SomeColumn(args: seq<string>, formats: seq<string>)
    requires 2 <= |args| && Accepted(args, formats, false)
    ensures Items(args) != []
  {
  }

  /**
   * The parameter at position `i + 1` of the statement for the `r`-th queued request is the value
   * of the `i`-th variable of the directive in that request, bound with that column's binder. No
   * value crosses over to another row or column on its way through the queue and the flat list.
   */
  lemma ParameterIsItsColumn(args: seq<string>, formats: seq<string>, index: string -> nat,
                             requests: seq<Request>, r: nat, i: nat)
    requires 3 <= |args| && Accepted(args, formats, false)
    requires var columns := CompileAll(Items(args), index);
             && (forall r | 0 <= r < |requests| :: Serves(requests[r], columns))
             && r < |requests| && i < |columns|
    ensures var columns := CompileAll(Items(args), index);
            var drained := Lists.Relist(|columns|, Queue(columns, requests));
            && |drained| == |requests| && |drained[r]| == |columns|
            && index(Items(args)[i].name) < |requests[r].vars|
            && Connection.Bindings(Binders(columns), drained[r])[i] ==
               Connection.Parameter(
                 BinderOf(TypeOf(Items(args)[i])),
                 Stored(SourceOf(columns[i], requests[r]), requests[r].vars[index(Items(args)[i].name)]))
  {
    hide Items, Accepted, Lists.Relist, TypeOf, BinderOf, Stored, OpOf;
    var columns := CompileAll(Items(args), index);
    var queue := Queue(columns, requests);
    Lists.RelistArity(|columns|, queue);
    assert columns[i] == Compile(Items(args)[i], index);
    assert Serves(requests[r], columns);
    assert queue[r][i] == Stored(SourceOf(columns[i], requests[r]), requests[r].vars[columns[i].index]);
  }
}
