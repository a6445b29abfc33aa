// extract_feature (src/io/parser.cpp): a model name, a colon, the online rate and the feature
// numbers, separated by commas. atof and atoi are parameters.
module FeatureText {
  import opened Wrappers
  import opened KvData
  import StringUtil
  import LearnerMath

  /** atoi gives a C int. */
  ghost predicate IsAtoi(atoi: string -> int) {
    forall s: string {:trigger atoi(s)} :: -LearnerMath.INT_LIMIT <= atoi(s) < LearnerMath.INT_LIMIT
  }

  /** The positive numbers among some pieces, in order. */
  function Positive(atoi: string -> int, pieces: seq<string>): seq<Key>
    requires IsAtoi(atoi)
  {
    if pieces == [] then []
    else
      var x := atoi(pieces[|pieces| - 1]);
      Positive(atoi, pieces[..|pieces| - 1]) + if x < 1 then [] else [x]
  }

  /** What follows the first colon, cut at commas; None without a colon. */
  function Fields(s: string): Option<seq<string>> {
    var first := StringUtil.FindFrom(s, ':', 0);
    if first == |s| then None else Some(StringUtil.Split(s[first + 1..], ','))
  }

  method ExtractFeature(atoi: string -> int, atof: string -> real, s: string, igCtr0: real)
    returns (igCtr: real, features: seq<Key>)
    requires IsAtoi(atoi)
    ensures Fields(s).None? ==> features == [] && igCtr == igCtr0
    ensures Fields(s).Some? ==> Fields(s).value != [] && igCtr == atof(Fields(s).value[0])
    ensures Fields(s).Some? ==> features == Positive(atoi, Fields(s).value[1..])
  {
    igCtr, features := igCtr0, [];
    var first := StringUtil.FindFrom(s, ':', 0);
    if first == |s| {
      return;
    }
    var fields := StringUtil.SplitLoop(s[first + 1..], ',');
    igCtr := atof(fields[0]);
    ghost var numbers := fields[1..];
    for i := 1 to |fields|
      invariant features == Positive(atoi, numbers[..i - 1])
    {
      hide Positive, StringUtil.Split;
      var temp := atoi(fields[i]);
      PositiveSnoc(atoi, numbers, i - 1);
      if temp < 1 {
        continue;
      }
      features := features + [temp];
    }
    assert numbers[..|numbers|] == numbers;
  }

  lemma PositiveSnoc(atoi: string -> int, pieces: seq<string>, i: nat)
    requires IsAtoi(atoi) && i < |pieces|
    ensures var x := atoi(pieces[i]);
      Positive(atoi, pieces[..i + 1]) == Positive(atoi, pieces[..i]) + if x < 1 then [] else [x]
  {
    assert pieces[..i + 1][..i] == pieces[..i];
  }

  /**
   * Every feature is at least 1, so never the bias key, and below 2^31, so caculate_gradient's
   * int holds it; and there are fewer features than fields.
   */
  lemma {:induction false} FeaturesAreSmall(atoi: string -> int, pieces: seq<string>)
    requires IsAtoi(atoi)
    ensures forall i :: 0 <= i < |Positive(atoi, pieces)| ==>
      var k := Positive(atoi, pieces)[i]; 1 <= k < LearnerMath.INT_LIMIT && LearnerMath.AsInt(k) == k
    ensures |Positive(atoi, pieces)| <= |pieces|
  {
    if pieces != [] {
      FeaturesAreSmall(atoi, pieces[..|pieces| - 1]);
    }
  }
}
