/**
 The pass/fail ledger the checker reports into: one boolean per graded
 rule, flipped to failing by `UpdateItem`, and a score of two points off
 per failing rule.
 */
module Grader {

  /** The graded rules. Locality (XII.C) is not among them. */
  const GradeItems: set<string> := {"I.A", "I.C", "I.D", "XII.A", "XII.B", "XII.D"}

  /** The ledger a new grade starts from: every graded rule passing. */
  function InitGrade(): (r: map<string, bool>)
    ensures r.Keys == GradeItems
    ensures forall k :: k in r ==> r[k]
  {
    map k | k in GradeItems :: true
  }

  datatype Grade = Grade(data: map<string, bool>, subtract: int, username: string)

  function NewGrade(username: string): (g: Grade)
    ensures g.data.Keys == GradeItems
    ensures forall k :: k in g.data ==> g.data[k]
    ensures g.subtract == 0 && g.username == username
  {
    Grade(InitGrade(), 0, username)
  }

  /** Marks a rule failing; a key that is not a graded rule is reported and ignored. */
  function UpdateItem(g: Grade, key: string): (r: Grade)
    ensures r.data.Keys == g.data.Keys
    ensures r.subtract == g.subtract && r.username == g.username
    ensures key in g.data ==> !r.data[key]
    ensures forall k :: k in g.data && k != key ==> r.data[k] == g.data[k]
    ensures key !in g.data ==> r == g
  {
    if key in g.data then g.(data := g.data[key := false]) else g
  }

  /** The rules in `keys` reported one after another, first to last. */
  function UpdateAll(g: Grade, keys: seq<string>): Grade
  {
    if keys == [] then g else UpdateItem(UpdateAll(g, keys[..|keys| - 1]), keys[|keys| - 1])
  }

  lemma {:induction false} UpdateAllAppend(g: Grade, a: seq<string>, b: seq<string>)
    ensures UpdateAll(UpdateAll(g, a), b) == UpdateAll(g, a + b)
  {
    if b == [] {
      assert a + b == a;
    } else {
      var b' := b[..|b| - 1];
      UpdateAllAppend(g, a, b');
      assert (a + b)[..|a + b| - 1] == a + b';
      assert (a + b)[|a + b| - 1] == b[|b| - 1];
    }
  }

  /**
   After a run of reports the ledger keeps its keys, and a rule is passing
   exactly when it was passing before and was not reported. So the ledger
   depends only on the set of reported keys: neither order nor repetition
   matters, and no entry ever returns to passing.
   */
  lemma {:induction false} UpdateAllFails(g: Grade, keys: seq<string>)
    ensures UpdateAll(g, keys).data.Keys == g.data.Keys
    ensures UpdateAll(g, keys).subtract == g.subtract
    ensures UpdateAll(g, keys).username == g.username
    ensures forall k :: k in g.data ==> UpdateAll(g, keys).data[k] == (g.data[k] && k !in keys)
  {
    if keys != [] {
      var init := keys[..|keys| - 1];
      UpdateAllFails(g, init);
      assert forall k :: k in keys <==> k in init || k == keys[|keys| - 1];
    }
  }

  /** A fresh ledger after a run of reports: a graded rule fails iff it was reported. */
  lemma FreshLedgerFailsExactlyReported(username: string, keys: seq<string>)
    ensures UpdateAll(NewGrade(username), keys).data.Keys == GradeItems
    ensures forall k :: k in GradeItems ==> (UpdateAll(NewGrade(username), keys).data[k] <==> k !in keys)
  {
    UpdateAllFails(NewGrade(username), keys);
  }

  /** Reporting the same rule twice is the same as reporting it once. */
  lemma UpdateItemIdempotent(g: Grade, key: string)
    ensures UpdateItem(UpdateItem(g, key), key) == UpdateItem(g, key)
  {
  }

  /** Locality findings are not graded: reporting them never changes a ledger. */
  lemma LocalityIsNotGraded(g: Grade)
    requires g.data.Keys == GradeItems
    ensures "XII.C" !in GradeItems
    ensures UpdateItem(g, "XII.C") == g
  {
  }

  /** The rules currently failing: never more than the ledger has entries. */
  function FailingKeys(d: map<string, bool>): (r: set<string>)
    ensures |r| <= |d.Keys|
  {
    var r := set k | k in d && !d[k];
    SubsetCard(r, d.Keys);
    r
  }

  /** Recomputes the deduction from zero: two points per failing rule. */
  method UpdateScore(g: Grade) returns (r: Grade)
    ensures r.data == g.data && r.username == g.username
    ensures r.subtract == -2 * |FailingKeys(g.data)|
  {
    var subtract := 0;
    var rest := g.data.Keys;
    ghost var seen: set<string> := {};
    while rest != {}
      invariant rest !! seen && rest + seen == g.data.Keys
      invariant subtract == -2 * |FailingKeys(g.data) * seen|
      decreases rest
    {
      var k :| k in rest;
      CountStep(FailingKeys(g.data), seen, k);
      MoveOne(rest, seen, k, g.data.Keys);
      if !g.data[k] {
        subtract := subtract - 2;
      }
      rest := rest - {k};
      seen := seen + {k};
    }
    assert FailingKeys(g.data) * seen == FailingKeys(g.data);
    r := g.(subtract := subtract);
  }

  /** One key moves from the keys still to visit to the keys seen. */
  lemma MoveOne(rest: set<string>, seen: set<string>, k: string, all: set<string>)
    requires rest !! seen && rest + seen == all && k in rest
    ensures (rest - {k}) !! (seen + {k}) && (rest - {k}) + (seen + {k}) == all
  {
  }

  /** Seeing one more key counts it once if it fails, and not otherwise. */
  lemma CountStep(failing: set<string>, seen: set<string>, k: string)
    requires k !in seen
    ensures |failing * (seen + {k})| == |failing * seen| + (if k in failing then 1 else 0)
  {
    if k in failing {
      assert failing * (seen + {k}) == failing * seen + {k};
    } else {
      assert failing * (seen + {k}) == failing * seen;
    }
  }

  /** On a ledger over the graded rules the deduction lies between -12 and 0. */
  lemma ScoreBounds(d: map<string, bool>)
    requires d.Keys == GradeItems
    ensures -12 <= -2 * |FailingKeys(d)| <= 0
  {
    assert |GradeItems| == 6;
  }

  lemma {:induction false} SubsetCard(a: set<string>, b: set<string>)
    requires a <= b
    ensures |a| <= |b|
  {
    if a != {} {
      var x :| x in a;
      SubsetCard(a - {x}, b - {x});
    }
  }
}
