/** What the Save handler computes before it posts: the top-1 prediction, the
    symptom text derived from it, and the `detectedAt` timestamp string. */
module SaveDecision {
  import opened PhpConversions

  /** One entry of the classifier's output. */
  datatype Prediction = Prediction(className: string, probability: real)

  /** The running best the selection loop starts from. */
  const NoPrediction := Prediction("", 0.0)

  const StrokeClass := "stroke"
  const StrokeThreshold: real := 0.5
  const StrokeDetected := "Stroke detected"
  const NoStrokeDetected := "No stroke detected"

  // ---------------------------------------------------------------------------
  // Top-1 selection

  /** The loop's result on a prefix: the running best after visiting `preds`
      left to right, replacing it only on a strictly greater probability. */
  function Top1(preds: seq<Prediction>): (best: Prediction)
    ensures best == NoPrediction || best in preds
  {
    if preds == [] then NoPrediction
    else
      var best := Top1(preds[..|preds| - 1]);
      if preds[|preds| - 1].probability > best.probability then preds[|preds| - 1] else best
  }

  /** `k` holds a maximal probability and every earlier entry is strictly lower. */
  ghost predicate IsEarliestMax(preds: seq<Prediction>, k: int)
  {
    && 0 <= k < |preds|
    && (forall j :: 0 <= j < k ==> preds[j].probability < preds[k].probability)
    && (forall j :: k <= j < |preds| ==> preds[j].probability <= preds[k].probability)
  }

  ghost predicate AllNonPositive(preds: seq<Prediction>)
  {
    forall j :: 0 <= j < |preds| ==> preds[j].probability <= 0.0
  }

  /** The running best never drops below 0 nor below any visited entry, and
      is either the starting value or the earliest entry of maximal,
      positive probability. */
  lemma {:induction false} Top1Bounds(preds: seq<Prediction>)
    ensures Top1(preds).probability >= 0.0
    ensures forall j :: 0 <= j < |preds| ==> preds[j].probability <= Top1(preds).probability
    ensures Top1(preds) == NoPrediction
            || exists k :: IsEarliestMax(preds, k) && preds[k].probability > 0.0 && Top1(preds) == preds[k]
  {
    if preds != [] {
      var n := |preds| - 1;
      var init, last := preds[..n], preds[n];
      assert preds == init + [last];
      Top1Bounds(init);
      var best := Top1(init);
      if last.probability > best.probability {
        NewEarliestMax(init, last);
      } else if best != NoPrediction {
        var k :| IsEarliestMax(init, k) && init[k].probability > 0.0 && best == init[k];
        KeepEarliestMax(init, last, k);
      }
    }
  }

  /** An entry above every earlier one becomes the earliest maximum. */
  lemma NewEarliestMax(init: seq<Prediction>, last: Prediction)
    requires forall j :: 0 <= j < |init| ==> init[j].probability < last.probability
    ensures IsEarliestMax(init + [last], |init|)
  {
    var preds := init + [last];
    assert forall j :: 0 <= j < |init| ==> preds[j] == init[j];
  }

  /** An entry no higher than the earliest maximum leaves it in place. */
  lemma KeepEarliestMax(init: seq<Prediction>, last: Prediction, k: int)
    requires IsEarliestMax(init, k) && last.probability <= init[k].probability
    ensures IsEarliestMax(init + [last], k)
  {
    var preds := init + [last];
    assert forall j :: 0 <= j < |init| ==> preds[j] == init[j];
  }

  /** Top-1 is the starting value exactly when no probability is positive, and
      otherwise the earliest entry of maximal probability. */
  lemma Top1Characterization(preds: seq<Prediction>)
    ensures AllNonPositive(preds) <==> Top1(preds) == NoPrediction
    ensures !AllNonPositive(preds) ==>
              exists k :: IsEarliestMax(preds, k) && preds[k].probability > 0.0 && Top1(preds) == preds[k]
  {
    Top1Bounds(preds);
    if Top1(preds) != NoPrediction {
      var k :| IsEarliestMax(preds, k) && preds[k].probability > 0.0 && Top1(preds) == preds[k];
      assert !AllNonPositive(preds);
    } else {
      assert AllNonPositive(preds);
    }
  }

  /** There is at most one earliest maximum. */
  lemma EarliestMaxUnique(preds: seq<Prediction>, k1: int, k2: int)
    requires IsEarliestMax(preds, k1) && IsEarliestMax(preds, k2)
    ensures k1 == k2
  {
    var p1, p2 := preds[k1].probability, preds[k2].probability;
    assert p1 <= p2 && p2 <= p1;
  }

  /** The selection loop of the Save handler. */
  method SelectTop1(preds: seq<Prediction>) returns (best: Prediction)
    ensures best == Top1(preds)
    ensures best.probability >= 0.0
    ensures forall j :: 0 <= j < |preds| ==> preds[j].probability <= best.probability
  {
    best := NoPrediction;
    for i := 0 to |preds|
      invariant best == Top1(preds[..i])
      invariant best.probability >= 0.0
      invariant forall j :: 0 <= j < i ==> preds[j].probability <= best.probability
    {
      assert preds[..i + 1][..i] == preds[..i];
      if preds[i].probability > best.probability {
        best := preds[i];
      }
    }
    assert preds[..|preds|] == preds;
  }

  // ---------------------------------------------------------------------------
  // The symptom rule

  function Symptom(top: Prediction): (s: string)
    ensures s == StrokeDetected <==> top.className == StrokeClass && top.probability >= StrokeThreshold
    ensures s == StrokeDetected || s == NoStrokeDetected
  {
    if top.className == StrokeClass && top.probability >= StrokeThreshold then StrokeDetected
    else NoStrokeDetected
  }

  /** Over a whole prediction list: "Stroke detected" exactly when the earliest
      entry of maximal probability is the stroke class at 0.5 or more. A later
      stroke entry that only ties the maximum does not count. */
  lemma SymptomOfPredictions(preds: seq<Prediction>)
    ensures Symptom(Top1(preds)) == StrokeDetected <==>
              exists k :: IsEarliestMax(preds, k)
                          && preds[k].className == StrokeClass && preds[k].probability >= StrokeThreshold
  {
    Top1Characterization(preds);
    if exists k :: IsEarliestMax(preds, k)
                   && preds[k].className == StrokeClass && preds[k].probability >= StrokeThreshold {
      var k :| IsEarliestMax(preds, k)
               && preds[k].className == StrokeClass && preds[k].probability >= StrokeThreshold;
      assert !AllNonPositive(preds);
      var k' :| IsEarliestMax(preds, k') && preds[k'].probability > 0.0 && Top1(preds) == preds[k'];
      EarliestMaxUnique(preds, k, k');
    }
  }

  // ---------------------------------------------------------------------------
  // detectedAt: `now.toISOString().slice(0, 19).replace('T', ' ')`

  /** Position of the first `c` in `s`, or -1. */
  function IndexOf(s: string, c: char): (i: int)
    ensures -1 <= i < |s|
    ensures i == -1 <==> c !in s
    ensures i >= 0 ==> s[i] == c && c !in s[..i]
  {
    if s == [] then -1
    else if s[0] == c then 0
    else
      var i := IndexOf(s[1..], c);
      if i == -1 then -1
      else
        assert s[..i + 1] == [s[0]] + s[1..][..i];
        i + 1
  }

  /** `String.prototype.replace` with a one-character string pattern: only the
      first occurrence is replaced. */
  function ReplaceFirst(s: string, from: char, to: char): (r: string)
    ensures |r| == |s|
    ensures forall j :: 0 <= j < |s| ==>
              r[j] == if s[j] == from && from !in s[..j] then to else s[j]
  {
    var i := IndexOf(s, from);
    if i < 0 then s
    else
      OnlyOneFirst(s, from, i);
      s[..i] + [to] + s[i + 1..]
  }

  /** Only the position of the first occurrence has no occurrence before it. */
  lemma OnlyOneFirst(s: string, c: char, i: int)
    requires 0 <= i < |s| && s[i] == c && c !in s[..i]
    ensures forall j :: 0 <= j < |s| && j != i ==> s[j] != c || c in s[..j]
  {
    forall j | 0 <= j < i ensures s[j] != c {
      assert s[..i][j] == s[j];
    }
    forall j | i < j < |s| ensures c in s[..j] {
      assert s[..j][i] == c;
    }
  }

  /** `s.slice(0, n)` */
  function Slice(s: string, n: nat): (r: string)
    ensures |r| == if |s| < n then |s| else n
    ensures r <= s
  {
    if |s| < n then s else s[..n]
  }

  function DetectedAt(iso: string): (r: string)
    ensures |r| == if |iso| < 19 then |iso| else 19
    ensures forall j :: 0 <= j < |r| ==>
              r[j] == if iso[j] == 'T' && 'T' !in iso[..j] then ' ' else iso[j]
  {
    var head := Slice(iso, 19);
    assert forall j :: 0 <= j < |head| ==> head[..j] == iso[..j];
    ReplaceFirst(head, 'T', ' ')
  }

  /** The shape `Date.prototype.toISOString` gives for years 0000 to 9999:
      YYYY-MM-DDTHH:MM:SS.sssZ */
  predicate IsIsoInstant(s: string)
  {
    && |s| == 24
    && s[4] == '-' && s[7] == '-' && s[10] == 'T' && s[13] == ':' && s[16] == ':'
    && s[19] == '.' && s[23] == 'Z'
    && forall j :: 0 <= j < 24 && j !in {4, 7, 10, 13, 16, 19, 23} ==> IsDigit(s[j])
  }

  /** The MySQL DATETIME literal shape: YYYY-MM-DD HH:MM:SS */
  predicate IsSqlDateTime(s: string)
  {
    && |s| == 19
    && s[4] == '-' && s[7] == '-' && s[10] == ' ' && s[13] == ':' && s[16] == ':'
    && forall j :: 0 <= j < 19 && j !in {4, 7, 10, 13, 16} ==> IsDigit(s[j])
  }

  /** An ISO instant becomes its first 19 characters with the date/time 'T'
      turned into a space: the DATETIME shape, every other character kept. */
  lemma DetectedAtOfIsoInstant(iso: string)
    requires IsIsoInstant(iso)
    ensures IsSqlDateTime(DetectedAt(iso))
    ensures DetectedAt(iso)[..10] == iso[..10] && DetectedAt(iso)[11..] == iso[11..19]
  {
    var r := DetectedAt(iso);
    assert forall j :: 0 <= j < 10 ==> iso[j] != 'T' by {
      forall j | 0 <= j < 10 ensures iso[j] != 'T' {
        if j !in {4, 7} { assert IsDigit(iso[j]); }
      }
    }
    assert 'T' !in iso[..10];
    assert iso[..11][10] == 'T';
    forall j | 0 <= j < 19 ensures r[j] == if j == 10 then ' ' else iso[j] {
      if j > 10 { assert iso[..j][10] == 'T'; }
    }
  }
}
