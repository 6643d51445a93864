/**
 The scope stack behind rule XII.C (declare each variable as locally as
 possible). Every open block owns a frame: an insertion-ordered record of
 the names declared directly in it, each with its reported line and a
 flag set once the name is referenced while that frame is innermost.
 */
module Scope {
  import opened Ast

  datatype Entry = Entry(name: string, line: int, used: bool)

  /** A frame, in insertion order; `Declare` keeps names unique. */
  type Frame = seq<Entry>

  predicate Has(f: Frame, x: string) {
    exists i :: 0 <= i < |f| && f[i].name == x
  }

  predicate UniqueNames(f: Frame) {
    forall i, j :: 0 <= i < j < |f| ==> f[i].name != f[j].name
  }

  /** Python's `setdefault`: a name already present keeps its first entry. */
  function Declare(f: Frame, x: string, line: int): Frame
  {
    if Has(f, x) then f else f + [Entry(x, line, false)]
  }

  /** A declaration adds the name once, unused, with its line, after the
      entries already there; a name already present keeps its first entry. */
  lemma DeclareSetdefault(f: Frame, x: string, line: int)
    ensures forall y :: Has(Declare(f, x, line), y) <==> Has(f, y) || y == x
    ensures |f| <= |Declare(f, x, line)| <= |f| + 1 && Declare(f, x, line)[..|f|] == f
    ensures |Declare(f, x, line)| == |f| + 1 <==> !Has(f, x)
    ensures |Declare(f, x, line)| == |f| + 1 ==> Declare(f, x, line)[|f|] == Entry(x, line, false)
    ensures UniqueNames(f) ==> UniqueNames(Declare(f, x, line))
  {
    var r := Declare(f, x, line);
    assert forall i :: 0 <= i < |f| ==> r[i] == f[i];
    assert forall y :: Has(r, y) <==> Has(f, y) || y == x by {
      forall y | Has(r, y) ensures Has(f, y) || y == x {
        var i :| 0 <= i < |r| && r[i].name == y;
        if i == |f| { assert y == x; }
      }
      if !Has(f, x) { assert r[|f|].name == x; }
    }
  }

  /** Sets the used flag of the entries named `x`; nothing else changes. */
  function Mark(f: Frame, x: string): (r: Frame)
    ensures |r| == |f|
    ensures forall i :: 0 <= i < |f| ==>
              r[i].name == f[i].name && r[i].line == f[i].line
              && (r[i].used <==> f[i].used || f[i].name == x)
  {
    if f == [] then []
    else [if f[0].name == x then f[0].(used := true) else f[0]] + Mark(f[1..], x)
  }

  /** One locality message per entry never marked, in insertion order. */
  function UnusedReport(f: Frame): seq<Message>
  {
    if f == [] then []
    else (if f[0].used then [] else [NotLocal(f[0].line, f[0].name)]) + UnusedReport(f[1..])
  }

  /**
   A frame's closing report holds a locality message for exactly the
   entries left unmarked, and for those only; with unique names it holds
   each at most once, so exactly one message per unmarked entry.
   */
  lemma UnusedReportExact(f: Frame)
    ensures forall m :: m in UnusedReport(f) <==>
              exists i :: 0 <= i < |f| && !f[i].used && m == NotLocal(f[i].line, f[i].name)
    ensures UniqueNames(f) ==> forall p, q :: 0 <= p < q < |UnusedReport(f)| ==>
              UnusedReport(f)[p] != UnusedReport(f)[q]
  {
    UnusedReportMembers(f);
    if UniqueNames(f) { UnusedReportDistinct(f); }
  }

  lemma {:induction false} UnusedReportMembers(f: Frame)
    ensures forall m :: m in UnusedReport(f) <==>
              exists i :: 0 <= i < |f| && !f[i].used && m == NotLocal(f[i].line, f[i].name)
  {
    if f != [] {
      var rest := f[1..];
      UnusedReportMembers(rest);
      var head: seq<Message> := if f[0].used then [] else [NotLocal(f[0].line, f[0].name)];
      assert UnusedReport(f) == head + UnusedReport(rest);
      forall m | m in UnusedReport(f)
        ensures exists i :: 0 <= i < |f| && !f[i].used && m == NotLocal(f[i].line, f[i].name)
      {
        if m !in head {
          var i :| 0 <= i < |rest| && !rest[i].used && m == NotLocal(rest[i].line, rest[i].name);
          assert f[i + 1] == rest[i];
        }
      }
      forall m | exists i :: 0 <= i < |f| && !f[i].used && m == NotLocal(f[i].line, f[i].name)
        ensures m in UnusedReport(f)
      {
        var i :| 0 <= i < |f| && !f[i].used && m == NotLocal(f[i].line, f[i].name);
        if i > 0 { assert rest[i - 1] == f[i]; }
      }
    }
  }

  lemma {:induction false} UnusedReportDistinct(f: Frame)
    requires UniqueNames(f)
    ensures forall p, q :: 0 <= p < q < |UnusedReport(f)| ==> UnusedReport(f)[p] != UnusedReport(f)[q]
  {
    if f != [] {
      var rest := f[1..];
      assert UniqueNames(rest) by {
        forall a, b | 0 <= a < b < |rest| ensures rest[a].name != rest[b].name {
          assert rest[a] == f[a + 1] && rest[b] == f[b + 1];
        }
      }
      UnusedReportDistinct(rest);
      var head: seq<Message> := if f[0].used then [] else [NotLocal(f[0].line, f[0].name)];
      var tail := UnusedReport(rest);
      assert UnusedReport(f) == head + tail;
      if !f[0].used {
        UnusedReportMembers(rest);
        forall m | m in tail ensures m.name != f[0].name {
          var i :| 0 <= i < |rest| && !rest[i].used && m == NotLocal(rest[i].line, rest[i].name);
          assert rest[i] == f[i + 1];
        }
      }
      var r := head + tail;
      forall p, q | 0 <= p < q < |r| ensures r[p] != r[q] {
        if |head| == 1 && p == 0 {
          assert r[q] == tail[q - 1];
          assert r[q] in tail;
        } else {
          assert r[p] == tail[p - |head|];
          assert r[q] == tail[q - |head|];
        }
      }
    }
  }

  /** The number of entries of `f` never marked. */
  function UnusedCount(f: Frame): nat {
    if f == [] then 0 else (if f[0].used then 0 else 1) + UnusedCount(f[1..])
  }

  lemma {:induction false} UnusedCountAppend(a: Frame, b: Frame)
    ensures UnusedCount(a + b) == UnusedCount(a) + UnusedCount(b)
  {
    if a == [] {
      assert a + b == b;
    } else {
      assert (a + b)[0] == a[0] && (a + b)[1..] == a[1..] + b;
      UnusedCountAppend(a[1..], b);
    }
  }

  /**
   Where each locality message sits in a frame's closing report: the one
   for unmarked entry `i` comes after exactly the messages of the unmarked
   entries before it, and there are no others.
   */
  lemma {:induction false} UnusedReportPositions(f: Frame)
    ensures |UnusedReport(f)| == UnusedCount(f)
    ensures forall i :: 0 <= i < |f| && !f[i].used ==>
              UnusedCount(f[..i]) < |UnusedReport(f)|
              && UnusedReport(f)[UnusedCount(f[..i])] == NotLocal(f[i].line, f[i].name)
  {
    if f != [] {
      var rest := f[1..];
      UnusedReportPositions(rest);
      var h := if f[0].used then 0 else 1;
      var head: seq<Message> := if f[0].used then [] else [NotLocal(f[0].line, f[0].name)];
      var tail := UnusedReport(rest);
      assert UnusedReport(f) == head + tail;
      forall i | 0 <= i < |f| && !f[i].used
        ensures UnusedCount(f[..i]) < |UnusedReport(f)|
                && UnusedReport(f)[UnusedCount(f[..i])] == NotLocal(f[i].line, f[i].name)
      {
        if i == 0 {
          assert f[..0] == [];
        } else {
          assert f[..i] == [f[0]] + rest[..i - 1];
          assert f[..i][1..] == rest[..i - 1];
          assert UnusedCount(f[..i]) == h + UnusedCount(rest[..i - 1]);
          assert rest[i - 1] == f[i];
          assert (head + tail)[h + UnusedCount(rest[..i - 1])] == tail[UnusedCount(rest[..i - 1])];
        }
      }
    }
  }

  /**
   A frame's closing report lists its unmarked entries in insertion order:
   of two unmarked entries, the earlier one's message comes first.
   */
  lemma UnusedReportInOrder(f: Frame)
    ensures forall i, j :: 0 <= i < j < |f| && !f[i].used && !f[j].used ==>
              exists p, q :: 0 <= p < q < |UnusedReport(f)|
                             && UnusedReport(f)[p] == NotLocal(f[i].line, f[i].name)
                             && UnusedReport(f)[q] == NotLocal(f[j].line, f[j].name)
  {
    UnusedReportPositions(f);
    forall i, j | 0 <= i < j < |f| && !f[i].used && !f[j].used
      ensures exists p, q :: 0 <= p < q < |UnusedReport(f)|
                             && UnusedReport(f)[p] == NotLocal(f[i].line, f[i].name)
                             && UnusedReport(f)[q] == NotLocal(f[j].line, f[j].name)
    {
      assert f[..j] == f[..i] + f[i..j];
      UnusedCountAppend(f[..i], f[i..j]);
      assert f[i..j] == [f[i]] + f[i + 1..j];
      assert f[i..j][1..] == f[i + 1..j];
      var p, q := UnusedCount(f[..i]), UnusedCount(f[..j]);
      assert p < q;
    }
  }

  /** What visiting a node does to the innermost frame. */
  datatype Event = Declared(name: string, line: int) | Used(name: string)

  /** An identifier marks an entry only when it is non-empty and in this frame. */
  function Step(f: Frame, e: Event): Frame {
    match e
    case Declared(x, l) => Declare(f, x, l)
    case Used(x) => if x != "" && Has(f, x) then Mark(f, x) else f
  }

  /** The frame after a run of events, applied first to last. */
  function Replay(f: Frame, evs: seq<Event>): Frame {
    if evs == [] then f else Step(Replay(f, evs[..|evs| - 1]), evs[|evs| - 1])
  }

  lemma {:induction false} ReplayAppend(f: Frame, a: seq<Event>, b: seq<Event>)
    ensures Replay(Replay(f, a), b) == Replay(f, a + b)
  {
    if b == [] {
      assert a + b == a;
    } else {
      ReplayAppend(f, a, b[..|b| - 1]);
      assert (a + b)[..|a + b| - 1] == a + b[..|b| - 1];
      assert (a + b)[|a + b| - 1] == b[|b| - 1];
    }
  }

  predicate DeclaredIn(evs: seq<Event>, x: string) {
    exists i :: 0 <= i < |evs| && evs[i].Declared? && evs[i].name == x
  }

  /** Some reference to `x` comes after some declaration of `x`. */
  predicate UsedAfterDeclared(evs: seq<Event>, x: string) {
    exists i, j :: 0 <= i < j < |evs| && evs[i].Declared? && evs[i].name == x && evs[j] == Used(x)
  }

  /** `l` is the line of the first declaration of `x`. */
  predicate FirstDeclaredAt(evs: seq<Event>, x: string, l: int) {
    exists i :: 0 <= i < |evs| && evs[i] == Declared(x, l) && !DeclaredIn(evs[..i], x)
  }

  /** What the frame `f` says about `x` agrees with the event history `evs`. */
  predicate Describes(f: Frame, evs: seq<Event>, x: string) {
    && (Has(f, x) <==> DeclaredIn(evs, x))
    && forall i :: 0 <= i < |f| && f[i].name == x ==>
         FirstDeclaredAt(evs, x, f[i].line)
         && (f[i].used <==> x != "" && UsedAfterDeclared(evs, x))
  }

  lemma HistoryExtend(pre: seq<Event>, e: Event, x: string)
    ensures DeclaredIn(pre + [e], x) <==> DeclaredIn(pre, x) || (e.Declared? && e.name == x)
    ensures UsedAfterDeclared(pre + [e], x) <==> UsedAfterDeclared(pre, x) || (e == Used(x) && DeclaredIn(pre, x))
    ensures forall l :: FirstDeclaredAt(pre, x, l) ==> FirstDeclaredAt(pre + [e], x, l)
  {
    var evs := pre + [e];
    assert forall i :: 0 <= i < |pre| ==> evs[i] == pre[i];
    assert forall k :: 0 <= k <= |pre| ==> evs[..k] == pre[..k];
    if DeclaredIn(evs, x) && !DeclaredIn(pre, x) {
      var a :| 0 <= a < |evs| && evs[a].Declared? && evs[a].name == x;
      assert a == |pre|;
    }
    if e.Declared? && e.name == x {
      assert evs[|pre|] == e;
    }
    if UsedAfterDeclared(evs, x) && !UsedAfterDeclared(pre, x) {
      var a, b :| 0 <= a < b < |evs| && evs[a].Declared? && evs[a].name == x && evs[b] == Used(x);
      assert b == |pre|;
    }
    if e == Used(x) && DeclaredIn(pre, x) {
      var a :| 0 <= a < |pre| && pre[a].Declared? && pre[a].name == x;
      assert evs[a] == pre[a] && evs[|pre|] == Used(x);
    }
    forall l | FirstDeclaredAt(pre, x, l) ensures FirstDeclaredAt(evs, x, l) {
      var k :| 0 <= k < |pre| && pre[k] == Declared(x, l) && !DeclaredIn(pre[..k], x);
      assert evs[k] == pre[k] && evs[..k] == pre[..k];
    }
  }

  lemma StepDeclaredDescribes(f: Frame, pre: seq<Event>, y: string, l: int, x: string)
    requires Describes(f, pre, x)
    ensures Describes(Declare(f, y, l), pre + [Declared(y, l)], x)
  {
    var e := Declared(y, l);
    var evs := pre + [e];
    var r := Declare(f, y, l);
    DeclareSetdefault(f, y, l);
    HistoryExtend(pre, e, x);
    forall i | 0 <= i < |r| && r[i].name == x
      ensures FirstDeclaredAt(evs, x, r[i].line)
      ensures r[i].used <==> x != "" && UsedAfterDeclared(evs, x)
    {
      if i < |f| {
        assert r[i] == f[i];
      } else {
        assert r[i] == Entry(y, l, false);
        assert !Has(f, x) && !DeclaredIn(pre, x);
        assert evs[|pre|] == Declared(x, l) && evs[..|pre|] == pre;
      }
    }
  }

  lemma StepUsedDescribes(f: Frame, pre: seq<Event>, y: string, x: string)
    requires Describes(f, pre, x)
    ensures Describes(Step(f, Used(y)), pre + [Used(y)], x)
  {
    HistoryExtend(pre, Used(y), x);
  }

  /**
   The frame a block builds from its events, independently of how: a
   name has an entry iff it was declared; the entry keeps the line of the
   first declaration; and it is marked iff the name is non-empty and was
   referenced after being declared. References before the declaration,
   or made while an inner block was innermost, do not count.
   */
  lemma {:induction false} ReplayFromEmpty(evs: seq<Event>, x: string)
    ensures Describes(Replay([], evs), evs, x)
  {
    if evs != [] {
      var pre := evs[..|evs| - 1];
      var e := evs[|evs| - 1];
      ReplayFromEmpty(pre, x);
      assert evs == pre + [e];
      match e
      case Declared(y, l) => StepDeclaredDescribes(Replay([], pre), pre, y, l, x);
      case Used(y) => StepUsedDescribes(Replay([], pre), pre, y, x);
    }
  }

  lemma FirstDeclaredUnique(evs: seq<Event>, x: string, l1: int, l2: int)
    requires FirstDeclaredAt(evs, x, l1) && FirstDeclaredAt(evs, x, l2)
    ensures l1 == l2
  {
    var i1 :| 0 <= i1 < |evs| && evs[i1] == Declared(x, l1) && !DeclaredIn(evs[..i1], x);
    var i2 :| 0 <= i2 < |evs| && evs[i2] == Declared(x, l2) && !DeclaredIn(evs[..i2], x);
  }

  lemma {:induction false} ReplayKeepsUniqueNames(f: Frame, evs: seq<Event>)
    requires UniqueNames(f)
    ensures UniqueNames(Replay(f, evs))
  {
    if evs != [] {
      ReplayKeepsUniqueNames(f, evs[..|evs| - 1]);
    }
  }

  /**
   The locality verdict of a block, stated on its events alone: the block
   reports `x` at line `l` exactly when `l` is the line of the first
   declaration of `x` in the block and no reference to `x` followed a
   declaration of it while the block was innermost; and it reports no
   name twice.
   */
  lemma LocalityVerdict(evs: seq<Event>, x: string, l: int)
    ensures NotLocal(l, x) in UnusedReport(Replay([], evs)) <==>
              FirstDeclaredAt(evs, x, l) && !(x != "" && UsedAfterDeclared(evs, x))
    ensures forall p, q :: 0 <= p < q < |UnusedReport(Replay([], evs))| ==>
              UnusedReport(Replay([], evs))[p] != UnusedReport(Replay([], evs))[q]
  {
    var f := Replay([], evs);
    ReplayFromEmpty(evs, x);
    UnusedReportExact(f);
    ReplayKeepsUniqueNames([], evs);
    if FirstDeclaredAt(evs, x, l) && !(x != "" && UsedAfterDeclared(evs, x)) {
      assert DeclaredIn(evs, x);
      var i :| 0 <= i < |f| && f[i].name == x;
      FirstDeclaredUnique(evs, x, l, f[i].line);
      assert !f[i].used && NotLocal(l, x) == NotLocal(f[i].line, f[i].name);
    }
  }
}
