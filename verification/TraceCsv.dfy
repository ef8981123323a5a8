/** The trace CSV layer (riscv_trace_csv.py): entries, and the ';' packing of the
    gpr and csr columns. Quoting of the CSV file itself is not modelled. */
module TraceCsv {

  datatype Entry = Entry(
    pc: string, instr: string, gpr: seq<string>, csr: seq<string>,
    binary: string, mode: string, instrStr: string, operand: string)

  /** One CSV row, as DictWriter stores it and DictReader returns it. */
  datatype Row = Row(
    pc: string, instr: string, gpr: string, csr: string,
    binary: string, mode: string, instrStr: string, operand: string)

  /** Python's `s.split(sep)` for a one-character separator. */
  function Split(s: string, sep: char): (parts: seq<string>)
    ensures |parts| >= 1
  {
    if s == "" then [""]
    else
      var rest := Split(s[1..], sep);
      if s[0] == sep then [""] + rest else [[s[0]] + rest[0]] + rest[1..]
  }

  /** Python's `sep.join(parts)`. */
  function Join(parts: seq<string>, sep: char): string
  {
    if parts == [] then ""
    else if |parts| == 1 then parts[0]
    else parts[0] + [sep] + Join(parts[1..], sep)
  }

  ghost predicate Separable(parts: seq<string>, sep: char) {
    parts != [] && forall i :: 0 <= i < |parts| ==> sep !in parts[i]
  }

  lemma {:induction false} SplitIsSeparable(s: string, sep: char)
    ensures Separable(Split(s, sep), sep)
  {
    if s != "" {
      SplitIsSeparable(s[1..], sep);
    }
  }

  lemma {:induction false} SplitOfPlain(s: string, sep: char)
    requires sep !in s
    ensures Split(s, sep) == [s]
  {
    if s != "" {
      SplitOfPlain(s[1..], sep);
      assert s == [s[0]] + s[1..];
    }
  }

  lemma {:induction false} SplitAtSeparator(a: string, b: string, sep: char)
    requires sep !in a
    ensures Split(a + [sep] + b, sep) == [a] + Split(b, sep)
  {
    var s := a + [sep] + b;
    if a == "" {
      assert s[1..] == b;
    } else {
      SplitAtSeparator(a[1..], b, sep);
      assert s[1..] == a[1..] + [sep] + b;
      assert a == [a[0]] + a[1..];
    }
  }

  lemma {:induction false} SplitOfJoin(parts: seq<string>, sep: char)
    requires Separable(parts, sep)
    ensures Split(Join(parts, sep), sep) == parts
  {
    if |parts| == 1 {
      SplitOfPlain(parts[0], sep);
    } else {
      SplitOfJoin(parts[1..], sep);
      SplitAtSeparator(parts[0], Join(parts[1..], sep), sep);
    }
  }

  /** A column survives join-then-split exactly when it is a non-empty list of
      separator-free strings; in particular the empty list comes back as [""]. */
  lemma ColumnRoundTrip(parts: seq<string>, sep: char)
    ensures Split(Join(parts, sep), sep) == parts <==> Separable(parts, sep)
    ensures Split(Join([], sep), sep) == [""]
  {
    SplitIsSeparable(Join(parts, sep), sep);
    if Separable(parts, sep) {
      SplitOfJoin(parts, sep);
    }
  }

  lemma {:induction false} JoinOfSplit(s: string, sep: char)
    ensures Join(Split(s, sep), sep) == s
  {
    if s != "" {
      JoinOfSplit(s[1..], sep);
      var rest := Split(s[1..], sep);
      if s[0] == sep {
        assert ([""] + rest)[1..] == rest;
        assert Join([""] + rest, sep) == [sep] + s[1..];
      } else {
        var head := [s[0]] + rest[0];
        assert ([head] + rest[1..])[1..] == rest[1..];
        assert Join([head] + rest[1..], sep) == [s[0]] + Join(rest, sep);
      }
    }
  }

  function WriteEntry(e: Entry): Row {
    Row(e.pc, e.instr, Join(e.gpr, ';'), Join(e.csr, ';'), e.binary, e.mode, e.instrStr, e.operand)
  }

  function ReadRow(r: Row): Entry {
    Entry(r.pc, r.instr, Split(r.gpr, ';'), Split(r.csr, ';'), r.binary, r.mode, r.instrStr, r.operand)
  }

  function WriteAll(es: seq<Entry>): seq<Row> {
    seq(|es|, i requires 0 <= i < |es| => WriteEntry(es[i]))
  }

  function ReadAll(rows: seq<Row>): seq<Entry> {
    seq(|rows|, i requires 0 <= i < |rows| => ReadRow(rows[i]))
  }

  /** Appends one entry per row, as the loop over the DictReader does. */
  method ReadTrace(rows: seq<Row>) returns (trace: seq<Entry>)
    ensures trace == ReadAll(rows)
  {
    trace := [];
    for n := 0 to |rows|
      invariant trace == ReadAll(rows[..n])
    {
      trace := trace + [ReadRow(rows[n])];
    }
    assert rows[..|rows|] == rows;
  }

  /** Writing then reading a trace gives it back exactly when both packed columns of
      every entry are separable. */
  lemma TraceRoundTrip(es: seq<Entry>)
    ensures ReadAll(WriteAll(es)) == es
       <==> forall i :: 0 <= i < |es| ==> Separable(es[i].gpr, ';') && Separable(es[i].csr, ';')
  {
    forall i | 0 <= i < |es|
      ensures ReadAll(WriteAll(es))[i] == es[i] <==> Separable(es[i].gpr, ';') && Separable(es[i].csr, ';')
    {
      ColumnRoundTrip(es[i].gpr, ';');
      ColumnRoundTrip(es[i].csr, ';');
    }
  }
}
