/** Emotion score tables as the backend holds them: a Python dict from
    emotion name to score, modelled as a sequence of (name, score) pairs in
    the dict's insertion order. Scores are fixed-point integers; the model's
    floating-point probabilities are outside this model. */
module Scores {

  datatype Scored = Scored(name: string, score: int)

  type Table = seq<Scored>

  function Labels(t: Table): set<string>
  {
    set k | 0 <= k < |t| :: t[k].name
  }

  /** A table has a label exactly when it has an entry. */
  lemma LabelsEmpty(t: Table)
    ensures Labels(t) == {} <==> t == []
  {
    if t != [] {
      assert t[0].name in Labels(t);
    }
  }

  /** Entry `k` has the largest score and every earlier entry scores less. */
  predicate IsFirstMax(t: Table, k: int)
  {
    0 <= k < |t|
    && (forall j :: 0 <= j < |t| ==> t[j].score <= t[k].score)
    && (forall j :: 0 <= j < k ==> t[j].score < t[k].score)
  }

  /** Python's `max(table, key=table.get)`: the first entry, in insertion
      order, whose score is maximal. */
  function DominantIndex(t: Table): (k: nat)
    requires |t| > 0
    ensures IsFirstMax(t, k)
  {
    if |t| == 1 then 0
    else
      var k := DominantIndex(t[..|t| - 1]);
      if t[|t| - 1].score > t[k].score then |t| - 1 else k
  }

  /** The score a table gives a name: the sum over its entries with that
      name, zero when there is none, as `d.get(name, 0)` reads it. */
  function Score(t: Table, x: string): int
  {
    if |t| == 0 then 0 else (if t[0].name == x then t[0].score else 0) + Score(t[1..], x)
  }

  /** No name occurs twice, as in a dict. */
  predicate Distinct(t: Table)
  {
    forall i, j :: 0 <= i < j < |t| ==> t[i].name != t[j].name
  }

  lemma ScoreCons(h: Scored, t: Table, x: string)
    ensures Score([h] + t, x) == (if h.name == x then h.score else 0) + Score(t, x)
  {
    assert ([h] + t)[0] == h && ([h] + t)[1..] == t;
  }

  /** `acc[name] = acc.get(name, 0) + score` on the entries: the name
      joins the labels, and a new name is appended at the end. `AddScore`
      gives the scores and `AddKeepsPlaces` the positions. */
  function Add(acc: Table, name: string, score: int): (r: Table)
    ensures Labels(r) == Labels(acc) + {name}
    ensures name !in Labels(acc) ==> r == acc + [Scored(name, score)]
    decreases |acc|
  {
    if |acc| == 0 then
      LabelsCons(Scored(name, score), []);
      assert [Scored(name, score)] + [] == [Scored(name, score)];
      [Scored(name, score)]
    else
      var rest := Add(acc[1..], name, score);
      var head := if acc[0].name == name then Scored(name, acc[0].score + score) else acc[0];
      assert acc == [acc[0]] + acc[1..];
      assert Labels(acc) == {acc[0].name} + Labels(acc[1..]) by {
        LabelsCons(acc[0], acc[1..]);
      }
      if acc[0].name == name then
        LabelsCons(head, acc[1..]);
        [head] + acc[1..]
      else
        LabelsCons(head, rest);
        [head] + rest
  }

  /** After `Add`, every entry keeps its name and place. */
  lemma {:induction false} AddKeepsPlaces(acc: Table, name: string, score: int)
    ensures var r := Add(acc, name, score);
            |r| >= |acc| && forall j :: 0 <= j < |acc| ==> r[j].name == acc[j].name
    decreases |acc|
  {
    var r := Add(acc, name, score);
    if |acc| > 0 {
      var tail := acc[1..];
      if acc[0].name == name {
        var head := Scored(name, acc[0].score + score);
        assert r == [head] + tail;
        assert forall j :: 1 <= j < |acc| ==> r[j] == tail[j - 1] == acc[j];
      } else {
        var rest := Add(tail, name, score);
        AddKeepsPlaces(tail, name, score);
        assert r == [acc[0]] + rest;
        assert forall j :: 1 <= j < |acc| ==> r[j] == rest[j - 1] && acc[j] == tail[j - 1];
      }
    }
  }

  /** The table grows only by a new name. */
  lemma {:induction false} AddLength(acc: Table, name: string, score: int)
    ensures |Add(acc, name, score)| == |acc| + (if name in Labels(acc) then 0 else 1)
    decreases |acc|
  {
    if |acc| > 0 && name in Labels(acc) {
      var tail := acc[1..];
      LabelsCons(acc[0], tail);
      assert acc == [acc[0]] + tail;
      if acc[0].name != name {
        AddLength(tail, name, score);
      }
    }
  }

  /** After `Add`, the name's score has grown by `score` and no other
      score has changed, absent names reading as zero. */
  lemma {:induction false} AddScore(acc: Table, name: string, score: int, x: string)
    ensures Score(Add(acc, name, score), x) == Score(acc, x) + (if x == name then score else 0)
    decreases |acc|
  {
    var r := Add(acc, name, score);
    if |acc| == 0 {
      ScoreCons(Scored(name, score), [], x);
      assert [Scored(name, score)] + [] == r;
    } else {
      assert acc == [acc[0]] + acc[1..];
      ScoreCons(acc[0], acc[1..], x);
      if acc[0].name == name {
        var head := Scored(name, acc[0].score + score);
        assert r == [head] + acc[1..];
        ScoreCons(head, acc[1..], x);
      } else {
        var rest := Add(acc[1..], name, score);
        assert r == [acc[0]] + rest;
        ScoreCons(acc[0], rest, x);
        AddScore(acc[1..], name, score, x);
      }
    }
  }

  /** Adding into a table with distinct names keeps the names distinct. */
  lemma AddKeepsDistinct(acc: Table, name: string, score: int)
    ensures Distinct(acc) ==> Distinct(Add(acc, name, score))
  {
    var r := Add(acc, name, score);
    AddKeepsPlaces(acc, name, score);
    AddLength(acc, name, score);
    if Distinct(acc) {
      if name in Labels(acc) {
        forall i, j | 0 <= i < j < |r| ensures r[i].name != r[j].name {
          assert r[i].name == acc[i].name && r[j].name == acc[j].name;
        }
      } else {
        forall i, j | 0 <= i < j < |r| ensures r[i].name != r[j].name {
          if j == |acc| {
            assert r[j].name == name;
            assert acc[i].name in Labels(acc);
          }
        }
      }
    }
  }

  lemma LabelsCons(x: Scored, t: Table)
    ensures Labels([x] + t) == {x.name} + Labels(t)
  {
    var u := [x] + t;
    assert u[0] == x;
    forall y | y in Labels(u) ensures y in {x.name} + Labels(t) {
      var k :| 0 <= k < |u| && u[k].name == y;
      if k > 0 { assert u[k] == t[k - 1]; }
    }
    forall y | y in Labels(t) ensures y in Labels(u) {
      var k :| 0 <= k < |t| && t[k].name == y;
      assert u[k + 1] == t[k];
    }
  }

  lemma LabelsSnoc(t: Table, x: Scored)
    ensures Labels(t + [x]) == Labels(t) + {x.name}
  {
    var u := t + [x];
    forall y | y in Labels(u) ensures y in Labels(t) + {x.name} {
      var k :| 0 <= k < |u| && u[k].name == y;
      if k < |t| { assert u[k] == t[k]; }
    }
    forall y | y in Labels(t) ensures y in Labels(u) {
      var k :| 0 <= k < |t| && t[k].name == y;
      assert u[k] == t[k];
    }
    assert u[|t|] == x;
  }

  /** Every entry of `d` added into `acc`, in `d`'s order: each name's
      score is the sum of its scores in both, and distinct names stay
      distinct. */
  function Merge(acc: Table, d: Table): (r: Table)
    ensures forall x :: Score(r, x) == Score(acc, x) + Score(d, x)
    ensures Labels(r) == Labels(acc) + Labels(d)
    ensures Distinct(acc) ==> Distinct(r)
    decreases |d|
  {
    if |d| == 0 then acc
    else
      LabelsCons(d[0], d[1..]);
      assert d == [d[0]] + d[1..];
      AddKeepsDistinct(acc, d[0].name, d[0].score);
      var r := Merge(Add(acc, d[0].name, d[0].score), d[1..]);
      assert forall x :: Score(r, x) == Score(acc, x) + Score(d, x) by {
        forall x ensures Score(r, x) == Score(acc, x) + Score(d, x) {
          ScoreCons(d[0], d[1..], x);
          AddScore(acc, d[0].name, d[0].score, x);
        }
      }
      r
  }

  /** A name's total over a run of frames, as an independent sum. */
  function FrameSum(frames: seq<Table>, x: string): int
  {
    if |frames| == 0 then 0 else FrameSum(frames[..|frames| - 1], x) + Score(frames[|frames| - 1], x)
  }

  /** Per-name totals over a run of frames, labels in first-appearance
      order: the numerator of the per-frame average in the backend. Each
      name appears once and carries its sum over the frames. */
  function Totals(frames: seq<Table>): (r: Table)
    ensures forall x :: Score(r, x) == FrameSum(frames, x)
    ensures Distinct(r)
    ensures forall x :: x in Labels(r) <==> exists i :: 0 <= i < |frames| && x in Labels(frames[i])
  {
    if |frames| == 0 then []
    else
      var r := Merge(Totals(frames[..|frames| - 1]), frames[|frames| - 1]);
      assert forall i :: 0 <= i < |frames| - 1 ==> frames[..|frames| - 1][i] == frames[i];
      r
  }

  /** In a table with distinct names, the score of a listed name is that
      of its single entry. */
  lemma {:induction false} ScoreOfDistinct(t: Table, k: int)
    requires Distinct(t) && 0 <= k < |t|
    ensures Score(t, t[k].name) == t[k].score
  {
    assert t == [t[0]] + t[1..];
    ScoreCons(t[0], t[1..], t[k].name);
    if k == 0 {
      ScoreAbsent(t[1..], t[0].name);
    } else {
      assert t[1..][k - 1] == t[k];
      ScoreOfDistinct(t[1..], k - 1);
    }
  }

  lemma {:induction false} ScoreAbsent(t: Table, x: string)
    requires forall i :: 0 <= i < |t| ==> t[i].name != x
    ensures Score(t, x) == 0
  {
    if |t| > 0 {
      assert forall i :: 0 <= i < |t| - 1 ==> t[1..][i] == t[i + 1];
      ScoreAbsent(t[1..], x);
    }
  }
}
