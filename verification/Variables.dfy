/** Evaluating the variables of a request into one log entry. */
module Variables {
  import opened Values
  import opened Escape

  /** Longer values are cut to this many bytes. */
  const MAX_STORED: nat := 4096

  /** An evaluated request variable; `escape` is a note left by the sizing pass. */
  class Variable {
    const data: seq<byte>
    const found: bool
    var escape: bool

    constructor (data: seq<byte>, found: bool)
      ensures this.data == data && this.found == found
    {
      this.data, this.found, escape := data, found, false;
    }
  }

  /**
   * Which pair of sizing and writing operations a column uses. A specialized pair ignores the
   * value of the variable: it announces the size of some text of its own, and then prints it.
   */
  datatype Op = Generic | Unescaped | Special

  /**
   * A column reads variable `index` of the request; several columns may read the same one.
   * `printed` is the text of a specialized operation.
   */
  datatype Source = Source(op: Op, index: nat, printed: seq<byte>)

  predicate Absent(v: Variable?) {
    v == null || !v.found
  }

  /** The text of a variable before truncation. */
  function Text(c: Source, v: Variable?): seq<byte> {
    if c.op == Special then c.printed
    else if Absent(v) then []
    else if c.op == Generic then EscapeText(v.data)
    else v.data
  }

  function Truncate(t: seq<byte>): seq<byte> {
    if MAX_STORED < |t| then t[..MAX_STORED] else t
  }

  /** The value a column contributes to the log entry. */
  function Stored(c: Source, v: Variable?): Value {
    if Text(c, v) == [] then None else Some(Truncate(Text(c, v)))
  }

  /** A variable without a value is logged as NULL, and only such a variable is. */
  lemma NullOnlyWhenEmpty(c: Source, v: Variable?)
    requires c.op != Special
    ensures Stored(c, v).None? <==> Absent(v) || v.data == []
  {
    if !Absent(v) {
      EscapedLength(v.data);
    }
  }

  /**
   * The truncation law for logged text: at most 4096 bytes, which are the whole text of the
   * largest possible prefix of the source and at most three bytes of the group after it.
   */
  lemma StoredTextIsAPrefix(c: Source, v: Variable)
    requires c.op == Generic && v.found && v.data != []
    ensures var k := CutPoint(v.data, MAX_STORED);
            var whole := EscapeText(v.data[..k]);
            var stored := Stored(c, v);
            && stored.Some?
            && |stored.value| <= MAX_STORED
            && whole <= stored.value <= EscapeText(v.data)
            && |stored.value| <= |whole| + 3
            && (stored.value != whole ==> k < |v.data| && stored.value[|whole|..] < EscapeByte(v.data[k]))
            && Unescape(stored.value[..|whole|]) == Some(v.data[..k])
            && (k == |v.data| <==> stored.value == EscapeText(v.data))
  {
    var s, k := v.data, CutPoint(v.data, MAX_STORED);
    NullOnlyWhenEmpty(c, v);
    CutPointIsLargest(s, MAX_STORED, |s|);
    assert s[..|s|] == s;
    if |EscapeText(s)| <= MAX_STORED {
      RoundTrip(s);
      assert EscapeText(s)[..|EscapeText(s)|] == EscapeText(s);
    } else {
      TruncationShape(s, MAX_STORED);
      RoundTrip(s[..k]);
      var whole := EscapeText(s[..k]);
      assert EscapeText(s)[..MAX_STORED][|whole|..] == EscapeText(s)[|whole|..MAX_STORED];
      assert EscapeText(s)[..MAX_STORED][..|whole|] == whole;
    }
  }

  /** At most 4096 bytes of a value are stored, and all of it if it is no longer than that. */
  lemma StoredLength(c: Source, v: Variable)
    requires c.op != Special && v.found && v.data != []
    ensures var text := if c.op == Generic then EscapeText(v.data) else v.data;
            Stored(c, v) == Some(if |text| <= 4096 then text else text[..4096])
  {
    NullOnlyWhenEmpty(c, v);
  }

  /** The sizing pass: how many bytes the writing pass will need. */
  method GetLen(c: Source, v: Variable?) returns (len: nat)
    modifies v
    ensures len == |Text(c, v)|
    ensures !Absent(v) && c.op != Special ==> v.escape == (c.op == Generic && CountEscaped(v.data) > 0)
  {
    if c.op == Special {
      return |c.printed|;
    }
    if v == null || !v.found {
      return 0;
    }
    if c.op == Generic {
      var count := OpEscape(null, v.data);
      v.escape := count > 0;
      len := |v.data| + count * 3;
      EscapedLength(v.data);
    } else {
      v.escape := false;
      len := |v.data|;
    }
  }

  /**
   * The writing pass, steered by the flag of the sizing pass. Given a buffer of at least the
   * size found there it writes exactly that many bytes, from the start of the buffer.
   */
  method Run(c: Source, v: Variable?, buf: array<byte>) returns (end: nat)
    requires !Absent(v) && c.op != Special ==> v.escape == (c.op == Generic && CountEscaped(v.data) > 0)
    requires |Text(c, v)| <= buf.Length
    modifies buf
    ensures end == |Text(c, v)|
    ensures buf[..end] == Text(c, v)
    ensures buf[end..] == old(buf[end..])
  {
    if c.op == Special {
      end := |c.printed|;
      forall i | 0 <= i < end {
        buf[i] := c.printed[i];
      }
      return;
    }
    if v == null || !v.found {
      return 0;
    }
    if c.op == Generic && v.escape {
      end := OpEscape(buf, v.data);
    } else {
      NothingToEscape(v.data);
      end := |v.data|;
      forall i | 0 <= i < end {
        buf[i] := v.data[i];
      }
    }
  }

  /**
   * One column of a log entry. `memory` says how many allocations still succeed; `None` means
   * that memory ran out.
   */
  method Evaluate(c: Source, v: Variable?, memory: nat) returns (value: Option<Value>)
    modifies v
    ensures value.Some? <==> NonNull([Stored(c, v)]) <= memory
    ensures value.Some? ==> value.value == Stored(c, v)
  {
    var len := GetLen(c, v);
    if len == 0 {
      return Some(None);
    }
    if memory == 0 {
      return None;
    }
    var buf := new byte[len + 1](_ => 0);
    var end := Run(c, v, buf);
    assert end == len;
    var stored := if len > MAX_STORED then MAX_STORED else len;
    assert buf[..stored] == buf[..end][..stored];
    return Some(Some(buf[..stored]));
  }

  /** The log entry of a request: one value per column, in column order. */
  function EntryOf(columns: seq<Source>, vars: seq<Variable?>): (row: Row)
    requires forall c | c in columns :: c.index < |vars|
    ensures |row| == |columns|
  {
    seq(|columns|, i requires 0 <= i < |columns| => Stored(columns[i], vars[columns[i].index]))
  }

  /** Builds the log entry; it fails exactly when memory runs out on the way. */
  method LogEntry(columns: seq<Source>, vars: seq<Variable?>, memory: nat) returns (row: Option<Row>)
    requires forall c | c in columns :: c.index < |vars|
    modifies set v | v in vars && v != null
    ensures row == if 1 + NonNull(EntryOf(columns, vars)) <= memory then Some(EntryOf(columns, vars)) else None
  {
    if memory == 0 {
      return None;
    }
    var values: Row, left: nat := [], memory - 1;
    ghost var entry := EntryOf(columns, vars);
    for i := 0 to |columns|
      invariant values == entry[..i]
      invariant left + NonNull(values) == memory - 1
    {
      assert entry[..i + 1] == entry[..i] + [entry[i]];
      var value := Evaluate(columns[i], vars[columns[i].index], left);
      if value == None {
        NonNullOfPrefix(entry, i + 1);
        return None;
      }
      values := values + [value.value];
      left := left - (if value.value.Some? then 1 else 0);
    }
    assert entry[..|columns|] == entry;
    return Some(values);
  }
}
