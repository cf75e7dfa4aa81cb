/**
 * The classifier stages' reduction of a response to a predicted class: a running best
 * (name, score) that starts at ("", 0.0), a strictly greater score replacing it and an
 * equal score appending ", " and the name. Both classifier handlers share this rule.
 */
module Aggregate {
  import opened Text
  import opened Events

  /** A classifier response in response order: each name with its score. */
  type Response = seq<(string, real)>

  /** The running `predicted_class` dictionary: its 'class' and its 'probability'. */
  datatype Best = Best(name: string, score: real)

  const Initial := Best("", 0.0)

  /** One iteration of the loop over the response. */
  function Step(b: Best, name: string, score: real): Best
  {
    if score > b.score then Best(name, score)
    else if score == b.score then Best(b.name + ", " + name, b.score)
    else b
  }

  /** The running best after the whole response. */
  function Fold(response: Response): Best
  {
    if response == [] then Initial
    else
      var last := response[|response| - 1];
      Step(Fold(response[..|response| - 1]), last.0, last.1)
  }

  /** `item['probabilities']`: each name's score, a later entry for a name overwriting an earlier one. */
  function Probabilities(response: Response): map<string, real>
  {
    if response == [] then map[]
    else
      var last := response[|response| - 1];
      Probabilities(response[..|response| - 1])[last.0 := last.1]
  }

  /** The highest score of the response, or the 0.0 start value when no score exceeds it. */
  function Top(response: Response): real
  {
    if response == [] then 0.0
    else
      var t := Top(response[..|response| - 1]);
      var s := response[|response| - 1].1;
      if s > t then s else t
  }

  /** The labels whose score is exactly `m`, in response order. */
  function Tied(response: Response, m: real): seq<string>
  {
    if response == [] then []
    else
      var last := response[|response| - 1];
      Tied(response[..|response| - 1], m) + (if last.1 == m then [last.0] else [])
  }

  /** No score exceeds the top, which is never negative, and a positive top is some name's score. */
  lemma {:induction false} TopBounds(response: Response)
    ensures Top(response) >= 0.0
    ensures forall i :: 0 <= i < |response| ==> response[i].1 <= Top(response)
    ensures Top(response) > 0.0 ==> Tied(response, Top(response)) != []
    ensures Top(response) == 0.0 || exists i :: 0 <= i < |response| && response[i].1 == Top(response)
  {
    if response != [] {
      var init := response[..|response| - 1];
      var n := |response| - 1;
      TopBounds(init);
      forall i | 0 <= i < |response|
        ensures response[i].1 <= Top(response)
      {
        if i < n {
          assert response[i] == init[i];
        }
      }
      if response[n].1 <= Top(init) && Top(init) > 0.0 {
        var i :| 0 <= i < |init| && init[i].1 == Top(init);
        assert response[i] == init[i];
      }
    }
  }

  /** A value above every score ties no name. */
  lemma {:induction false} TiedAbove(response: Response, m: real)
    requires forall i :: 0 <= i < |response| ==> response[i].1 < m
    ensures Tied(response, m) == []
  {
    if response != [] {
      var init := response[..|response| - 1];
      assert forall i :: 0 <= i < |init| ==> init[i] == response[i];
      TiedAbove(init, m);
    }
  }

  /**
   * The predicted class by its meaning: the ", "-join of every name scoring the top, in
   * response order. When the top is the 0.0 start value and some names score 0.0, each of
   * them is appended to the empty start name, so the join is preceded by ", ".
   */
  function PredictedClass(response: Response): string
  {
    var tied := Tied(response, Top(response));
    if Top(response) > 0.0 || tied == [] then Join(tied, ", ") else ", " + Join(tied, ", ")
  }

  /** `event['classification']` for a classifier response. */
  function ClassificationOf(response: Response): Classification
  {
    Classification(Probabilities(response), PredictedClass(response))
  }

  /** The loop's running best ends at the top score and the predicted class above. */
  lemma {:induction false} FoldIsTiedJoin(response: Response)
    ensures Fold(response).score == Top(response)
    ensures Fold(response).name == PredictedClass(response)
  {
    if response != [] {
      var init := response[..|response| - 1];
      var last := response[|response| - 1];
      FoldIsTiedJoin(init);
      TopBounds(init);
      var t := Top(init);
      var tied := Tied(init, t);
      var b := Fold(init);
      assert Fold(response) == Step(b, last.0, last.1);
      if last.1 > t {
        assert forall i :: 0 <= i < |init| ==> init[i].1 < last.1;
        TiedAbove(init, last.1);
        assert Top(response) == last.1 > 0.0;
        assert Fold(response) == Best(last.0, last.1);
        assert Tied(response, last.1) == [last.0];
      } else if last.1 == t {
        assert Top(response) == t;
        assert Fold(response) == Best(b.name + ", " + last.0, t);
        assert Tied(response, t) == tied + [last.0];
        if tied != [] {
          JoinSnoc(tied, last.0, ", ");
        } else {
          assert tied + [last.0] == [last.0];
        }
      } else {
        assert Top(response) == t;
        assert Fold(response) == b;
        assert Tied(response, t) == tied;
      }
    }
  }

  /** An empty response predicts the empty class. */
  lemma EmptyResponse()
    ensures Fold([]).name == "" && Probabilities([]) == map[]
  {
  }

  /** Exactly one name scoring `m` in the response makes that name the whole tie list. */
  lemma {:induction false} TiedSingle(response: Response, m: real, k: nat)
    requires k < |response| && response[k].1 == m
    requires forall i :: 0 <= i < |response| && i != k ==> response[i].1 != m
    ensures Tied(response, m) == [response[k].0]
  {
    var init := response[..|response| - 1];
    assert forall i :: 0 <= i < |init| ==> init[i] == response[i];
    if k == |response| - 1 {
      TiedNone(init, m);
    } else {
      TiedSingle(init, m, k);
    }
  }

  lemma {:induction false} TiedNone(response: Response, m: real)
    requires forall i :: 0 <= i < |response| ==> response[i].1 != m
    ensures Tied(response, m) == []
  {
    if response != [] {
      var init := response[..|response| - 1];
      assert forall i :: 0 <= i < |init| ==> init[i] == response[i];
      TiedNone(init, m);
    }
  }

  /** A name whose positive score is strictly above every other score is predicted alone. */
  lemma StrictWinner(response: Response, k: nat)
    requires k < |response| && response[k].1 > 0.0
    requires forall i :: 0 <= i < |response| && i != k ==> response[i].1 < response[k].1
    ensures Fold(response).name == response[k].0
  {
    TopBounds(response);
    TiedSingle(response, response[k].1, k);
    FoldIsTiedJoin(response);
  }

  /** A later strictly higher score discards every tie gathered before it. */
  lemma LaterWinnerDiscardsTies(response: Response, name: string, score: real)
    requires score > Fold(response).score
    ensures Fold(response + [(name, score)]) == Best(name, score)
  {
    assert (response + [(name, score)])[..|response|] == response;
  }

  /** An equal score appends ", " and the name to the predicted class. */
  lemma EqualScoreAppends(response: Response, name: string)
    ensures var b := Fold(response);
      Fold(response + [(name, b.score)]) == Best(b.name + ", " + name, b.score)
  {
    assert (response + [(name, Fold(response).score)])[..|response|] == response;
  }

  /**
   * The probabilities have one entry per name of the response and no other, each holding
   * the score of the name's last occurrence.
   */
  lemma {:induction false} ProbabilitiesEntries(response: Response)
    ensures forall l :: l in Probabilities(response) <==> exists i :: 0 <= i < |response| && response[i].0 == l
    ensures forall i :: 0 <= i < |response| && (forall j :: i < j < |response| ==> response[j].0 != response[i].0) ==>
      Probabilities(response)[response[i].0] == response[i].1
  {
    if response != [] {
      var init := response[..|response| - 1];
      var n := |response| - 1;
      ProbabilitiesEntries(init);
      forall l | l in Probabilities(response)
        ensures exists i :: 0 <= i < |response| && response[i].0 == l
      {
        if l != response[n].0 {
          assert l in Probabilities(init);
          var i :| 0 <= i < |init| && init[i].0 == l;
          assert response[i] == init[i];
        }
      }
      forall l | exists i :: 0 <= i < |response| && response[i].0 == l
        ensures l in Probabilities(response)
      {
        var i :| 0 <= i < |response| && response[i].0 == l;
        if i < n {
          assert init[i] == response[i];
        }
      }
      forall i | 0 <= i < |response| && (forall j :: i < j < |response| ==> response[j].0 != response[i].0)
        ensures Probabilities(response)[response[i].0] == response[i].1
      {
        if i < n {
          assert init[i] == response[i];
          assert forall j :: i < j < |init| ==> init[j] == response[j];
        }
      }
    }
  }

  /** `{A: 0.7, B: 0.9, C: 0.9}` in that order predicts "B, C". */
  lemma ExampleTie()
    ensures Fold([("A", 0.7), ("B", 0.9), ("C", 0.9)]).name == "B, C"
  {
    var r: Response := [("A", 0.7), ("B", 0.9), ("C", 0.9)];
    assert r[..1] == [("A", 0.7)] && r[..1][..0] == [];
    assert Fold(r[..1]) == Best("A", 0.7);
    assert r[..2] == [("A", 0.7), ("B", 0.9)] && r[..2][..1] == r[..1];
    assert Fold(r[..2]) == Best("B", 0.9);
    assert Fold(r) == Best("B, C", 0.9);
  }

  /** `{A: 0.9, B: 0.9, C: 0.95}` in that order predicts "C" alone. */
  lemma ExampleLaterWinner()
    ensures Fold([("A", 0.9), ("B", 0.9), ("C", 0.95)]).name == "C"
  {
    var r: Response := [("A", 0.9), ("B", 0.9), ("C", 0.95)];
    assert r[..1] == [("A", 0.9)] && r[..1][..0] == [];
    assert Fold(r[..1]) == Best("A", 0.9);
    assert r[..2] == [("A", 0.9), ("B", 0.9)] && r[..2][..1] == r[..1];
    assert Fold(r[..2]) == Best("A, B", 0.9);
    assert Fold(r) == Best("C", 0.95);
  }

  /** A first name scoring 0.0 is appended to the empty start name: ", A". */
  lemma ExampleZeroScore()
    ensures Fold([("A", 0.0)]).name == ", A"
  {
    var r: Response := [("A", 0.0)];
    assert r[..0] == [];
  }
}
