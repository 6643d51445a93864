/**
 The line -> declared-names table behind rule XII.A (one declaration per
 line), kept in the order lines were first seen, and the report the
 final pass draws from it.
 */
module LineTable {
  import opened Ast

  datatype LineEntry = LineEntry(line: int, names: seq<string>)

  /** Entries in first-seen order; a line appears at most once. */
  type Table = seq<LineEntry>

  predicate UniqueLines(t: Table) {
    forall i, j :: 0 <= i < j < |t| ==> t[i].line != t[j].line
  }

  /** The names recorded on `line`, in recording order. */
  function NamesAt(t: Table, line: int): seq<string>
  {
    if t == [] then []
    else if t[0].line == line then t[0].names
    else NamesAt(t[1..], line)
  }

  /** The lines of the table, in first-seen order. */
  function Lines(t: Table): (r: seq<int>)
    ensures |r| == |t|
    ensures forall i :: 0 <= i < |t| ==> r[i] == t[i].line
  {
    if t == [] then [] else [t[0].line] + Lines(t[1..])
  }

  /** Appends `name` to the list of `line`, opening the line if it is new. */
  function Add(t: Table, line: int, name: string): Table
  {
    if t == [] then [LineEntry(line, [name])]
    else if t[0].line == line then [t[0].(names := t[0].names + [name])] + t[1..]
    else [t[0]] + Add(t[1..], line, name)
  }

  /** Recording a name appends it to that line's list and opens the line at
      the end of the table when it is new; lines stay unique. */
  lemma {:induction false} AddRecords(t: Table, line: int, name: string)
    ensures forall l :: NamesAt(Add(t, line, name), l) == NamesAt(t, l) + (if l == line then [name] else [])
    ensures Lines(Add(t, line, name)) == Lines(t) + (if line in Lines(t) then [] else [line])
    ensures UniqueLines(t) ==> UniqueLines(Add(t, line, name))
  {
    AddNames(t, line, name);
    AddLines(t, line, name);
    if UniqueLines(t) { AddUnique(t, line, name); }
  }

  lemma {:induction false} AddNames(t: Table, line: int, name: string)
    ensures forall l :: NamesAt(Add(t, line, name), l) == NamesAt(t, l) + (if l == line then [name] else [])
  {
    if t != [] {
      var r := Add(t, line, name);
      if t[0].line == line {
        assert r[1..] == t[1..];
      } else {
        assert r[1..] == Add(t[1..], line, name);
        AddNames(t[1..], line, name);
      }
    }
  }

  lemma {:induction false} AddLines(t: Table, line: int, name: string)
    ensures Lines(Add(t, line, name)) == Lines(t) + (if line in Lines(t) then [] else [line])
  {
    if t != [] {
      var r := Add(t, line, name);
      assert Lines(t) == [t[0].line] + Lines(t[1..]);
      if t[0].line == line {
        assert r[1..] == t[1..];
        assert Lines(r) == [line] + Lines(t[1..]);
      } else {
        assert r[1..] == Add(t[1..], line, name);
        AddLines(t[1..], line, name);
        assert Lines(r) == [t[0].line] + Lines(Add(t[1..], line, name));
        assert line in Lines(t) <==> line in Lines(t[1..]);
      }
    }
  }

  lemma {:induction false} AddUnique(t: Table, line: int, name: string)
    requires UniqueLines(t)
    ensures UniqueLines(Add(t, line, name))
  {
    var r := Add(t, line, name);
    AddLines(t, line, name);
    forall i, j | 0 <= i < j < |r| ensures r[i].line != r[j].line {
      assert r[i].line == Lines(r)[i] && r[j].line == Lines(r)[j];
      if j < |t| {
        assert Lines(t)[i] == t[i].line && Lines(t)[j] == t[j].line;
      } else {
        assert Lines(r)[j] == line && line !in Lines(t);
        assert Lines(r)[i] == Lines(t)[i];
      }
    }
  }

  /** One message per name of a line holding more than one name. */
  function LineReport(e: LineEntry): (r: seq<Message>)
    ensures |e.names| <= 1 ==> r == []
    ensures |e.names| > 1 ==> |r| == |e.names|
    ensures forall i :: 0 <= i < |r| ==> r[i] == SharedLine(e.line, e.names[i])
  {
    if |e.names| > 1 then SharedAll(e.line, e.names) else []
  }

  function SharedAll(line: int, names: seq<string>): (r: seq<Message>)
    ensures |r| == |names|
    ensures forall i :: 0 <= i < |r| ==> r[i] == SharedLine(line, names[i])
  {
    if names == [] then [] else [SharedLine(line, names[0])] + SharedAll(line, names[1..])
  }

  /** The final pass: line by line in first-seen order. */
  function Report(t: Table): seq<Message>
  {
    if t == [] then [] else LineReport(t[0]) + Report(t[1..])
  }

  /** The messages of `ms` that carry line `l`, in order. */
  function OnLine(ms: seq<Message>, l: int): seq<Message>
  {
    if ms == [] then []
    else (if ms[0].line == l then [ms[0]] else []) + OnLine(ms[1..], l)
  }

  lemma {:induction false} OnLineAppend(a: seq<Message>, b: seq<Message>, l: int)
    ensures OnLine(a + b, l) == OnLine(a, l) + OnLine(b, l)
  {
    if a != [] {
      assert (a + b)[1..] == a[1..] + b;
      OnLineAppend(a[1..], b, l);
    } else {
      assert a + b == b;
    }
  }

  lemma {:induction false} OnLineAllSame(ms: seq<Message>, l: int)
    requires forall i :: 0 <= i < |ms| ==> ms[i].line == l
    ensures OnLine(ms, l) == ms
  {
    if ms != [] { OnLineAllSame(ms[1..], l); }
  }

  lemma {:induction false} OnLineNoneSame(ms: seq<Message>, l: int)
    requires forall i :: 0 <= i < |ms| ==> ms[i].line != l
    ensures OnLine(ms, l) == []
  {
    if ms != [] { OnLineNoneSame(ms[1..], l); }
  }

  lemma {:induction false} NamesAtAbsent(t: Table, l: int)
    requires l !in Lines(t)
    ensures NamesAt(t, l) == []
  {
    if t != [] {
      assert Lines(t)[1..] == Lines(t[1..]);
      NamesAtAbsent(t[1..], l);
    }
  }

  /**
   The final pass reports, for each line, exactly one message per name
   recorded there (repeated names included) when the line holds more than
   one name, and nothing for a line holding one.
   */
  lemma {:induction false} ReportPerLine(t: Table, l: int)
    requires UniqueLines(t)
    ensures OnLine(Report(t), l) == (if |NamesAt(t, l)| > 1 then SharedAll(l, NamesAt(t, l)) else [])
  {
    if t != [] {
      var rest := t[1..];
      assert UniqueLines(rest);
      ReportPerLine(rest, l);
      OnLineAppend(LineReport(t[0]), Report(rest), l);
      if t[0].line == l {
        OnLineAllSame(LineReport(t[0]), l);
        assert l !in Lines(rest) by {
          forall i | 0 <= i < |rest| ensures Lines(rest)[i] != l {
            assert rest[i] == t[i + 1];
          }
        }
        NamesAtAbsent(rest, l);
        if |t[0].names| > 1 {
          var a := LineReport(t[0]);
          var b := SharedAll(l, t[0].names);
          assert |a| == |b|;
          assert forall i :: 0 <= i < |a| ==> a[i] == b[i];
        }
      } else {
        OnLineNoneSame(LineReport(t[0]), l);
      }
    }
  }

  /**
   The final pass's promise, read back from where the report starts after
   the messages `errs` already emitted: only one-per-line messages for
   recorded lines, and, when the table holds one entry per line, on each
   line every name recorded there in order if there are several, and
   nothing otherwise.
   */
  lemma ReportAppended(errs: seq<Message>, t: Table)
    ensures forall m :: m in (errs + Report(t))[|errs|..] ==> m.SharedLine? && m.line in Lines(t)
    ensures UniqueLines(t) ==>
              forall l :: OnLine((errs + Report(t))[|errs|..], l)
                          == (if |NamesAt(t, l)| > 1 then SharedAll(l, NamesAt(t, l)) else [])
  {
    assert (errs + Report(t))[|errs|..] == Report(t);
    ReportOnlyShared(t);
    if UniqueLines(t) {
      forall l
        ensures OnLine(Report(t), l) == (if |NamesAt(t, l)| > 1 then SharedAll(l, NamesAt(t, l)) else [])
      {
        ReportPerLine(t, l);
      }
    }
  }

  /** Every message of the final pass is a one-per-line message for a recorded line. */
  lemma {:induction false} ReportOnlyShared(t: Table)
    ensures forall m :: m in Report(t) ==> m.SharedLine? && m.line in Lines(t)
  {
    if t != [] {
      ReportOnlyShared(t[1..]);
      assert Lines(t) == [t[0].line] + Lines(t[1..]);
    }
  }

  /** A name on a line not seen before opens a new entry at the end. */
  lemma {:induction false} AddNewLine(t: Table, l: int, x: string)
    requires l !in Lines(t)
    ensures Add(t, l, x) == t + [LineEntry(l, [x])]
  {
    if t != [] {
      assert Lines(t)[1..] == Lines(t[1..]);
      AddNewLine(t[1..], l, x);
      assert [t[0]] + (t[1..] + [LineEntry(l, [x])]) == t + [LineEntry(l, [x])];
    }
  }

  /** A name on the line of the last entry joins that entry. */
  lemma {:induction false} AddToLastLine(t: Table, l: int, names: seq<string>, x: string)
    requires l !in Lines(t)
    ensures Add(t + [LineEntry(l, names)], l, x) == t + [LineEntry(l, names + [x])]
  {
    if t != [] {
      var e, e' := LineEntry(l, names), LineEntry(l, names + [x]);
      LinesAppend([t[0]], t[1..]);
      assert [t[0]] + t[1..] == t;
      AddToLastLine(t[1..], l, names, x);
      ConsAppend(t[0], t[1..], [e]);
      ConsAppend(t[0], t[1..], [e']);
    }
  }

  lemma ConsAppend<T>(a: T, s: seq<T>, b: seq<T>)
    ensures ([a] + s + b)[1..] == s + b && ([a] + s + b)[0] == a
    ensures [a] + (s + b) == [a] + s + b
  {
  }

  lemma {:induction false} ReportAppend(a: Table, b: Table)
    ensures Report(a + b) == Report(a) + Report(b)
  {
    if a == [] {
      assert a + b == b;
    } else {
      assert (a + b)[1..] == a[1..] + b;
      ReportAppend(a[1..], b);
    }
  }

  lemma {:induction false} LinesAppend(a: Table, b: Table)
    ensures Lines(a + b) == Lines(a) + Lines(b)
  {
    if a == [] {
      assert a + b == b;
    } else {
      assert (a + b)[1..] == a[1..] + b;
      LinesAppend(a[1..], b);
    }
  }
}
