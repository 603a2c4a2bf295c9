/** TfidfVectorizer.Transform: character n-gram counts, weighted and scaled to unit length.
    Texts are the lower-cased runes of a payload. */
module Tfidf {
  import opened Reals

  datatype Vectorizer = Vectorizer(vocabulary: map<string, nat>, idf: seq<real>, ngramMin: nat, ngramMax: nat) {
    /** The vocabulary only names existing columns. */
    ghost predicate Valid() {
      forall g: string :: g in vocabulary ==> vocabulary[g] < |idf|
    }

    /** The window of length l at i is an n-gram of column idx. */
    predicate Maps(text: string, l: int, i: int, idx: nat) {
      && 0 <= l && 0 <= i <= |text| - l
      && text[i..i + l] in vocabulary && vocabulary[text[i..i + l]] == idx
    }

    /** All windows of all lengths that count towards column idx, as (length, start). */
    function Occurrences(text: string, idx: nat): set<(int, int)> {
      set l: int, i: int | ngramMin <= l <= ngramMax && 0 <= i <= |text| && Maps(text, l, i, idx) :: (l, i)
    }

    function Count(text: string, idx: nat): nat {
      |Occurrences(text, idx)|
    }

    /** Those of them that the loops visit before the window of length l0 at i0. */
    function Before(text: string, idx: nat, l0: int, i0: int): set<(int, int)> {
      set l: int, i: int | ngramMin <= l <= ngramMax && 0 <= i <= |text| && Maps(text, l, i, idx)
                           && (l < l0 || (l == l0 && i < i0)) :: (l, i)
    }

    lemma NextWindow(text: string, l: int, i: int, idx: nat)
      requires ngramMin <= l <= ngramMax && 0 <= i <= |text| - l
      ensures |Before(text, idx, l, i + 1)| == |Before(text, idx, l, i)| + if Maps(text, l, i, idx) then 1 else 0
    {
      var now := Before(text, idx, l, i);
      if Maps(text, l, i, idx) {
        assert Before(text, idx, l, i + 1) == now + {(l, i)};
      } else {
        assert Before(text, idx, l, i + 1) == now;
      }
    }

    lemma NextLength(text: string, l: int, i: int, idx: nat)
      requires 0 <= i && i > |text| - l
      ensures Before(text, idx, l, i) == Before(text, idx, l + 1, 0)
    {
    }

    /** Step 1: every window is looked at once. Columns without a match get no entry. */
    method CountTerms(text: string) returns (tf: map<nat, nat>)
      ensures forall idx :: (idx in tf <==> Count(text, idx) > 0) && (idx in tf ==> tf[idx] == Count(text, idx))
    {
      tf := map[];
      var length := ngramMin;
      while length <= ngramMax
        invariant length >= ngramMin
        invariant forall idx :: Get(tf, idx) == |Before(text, idx, length, 0)|
        invariant forall idx :: idx in tf ==> tf[idx] > 0
      {
        var i := 0;
        while i <= |text| - length
          invariant 0 <= i
          invariant forall idx :: Get(tf, idx) == |Before(text, idx, length, i)|
          invariant forall idx :: idx in tf ==> tf[idx] > 0
        {
          var ngram := text[i..i + length];
          forall idx
            ensures |Before(text, idx, length, i + 1)|
                    == Get(tf, idx) + if ngram in vocabulary && vocabulary[ngram] == idx then 1 else 0
          {
            NextWindow(text, length, i, idx);
          }
          if ngram in vocabulary {
            var idx := vocabulary[ngram];
            ghost var was := tf;
            tf := tf[idx := Get(tf, idx) + 1];
            assert forall k: nat :: Get(tf, k) == Get(was, k) + if idx == k then 1 else 0;
          }
          i := i + 1;
        }
        forall idx
          ensures Before(text, idx, length, i) == Before(text, idx, length + 1, 0)
        {
          NextLength(text, length, i, idx);
        }
        length := length + 1;
      }
      forall idx
        ensures Get(tf, idx) == Count(text, idx)
      {
        assert Before(text, idx, length, 0) == Occurrences(text, idx);
      }
    }

    /** Raw count times inverse document frequency. */
    function Weight(text: string, idx: nat): real
      requires idx < |idf|
    {
      Times(Count(text, idx) as real, idf[idx])
    }

    function Weights(text: string): seq<real> {
      seq(|idf|, k requires 0 <= k < |idf| => Weight(text, k))
    }

    lemma CountedColumnsExist(text: string, idx: nat)
      requires Valid() && Count(text, idx) > 0
      ensures idx < |idf|
    {
      var w :| w in Occurrences(text, idx);
    }

    /** Step 2: the map is ranged over in an order Go leaves open. */
    method ApplyIDF(text: string, tf: map<nat, nat>) returns (vec: array<real>, sumSq: real)
      requires Valid()
      requires forall idx :: (idx in tf <==> Count(text, idx) > 0) && (idx in tf ==> tf[idx] == Count(text, idx))
      ensures fresh(vec) && vec[..] == Weights(text) && sumSq == SumSquares(Weights(text))
    {
      vec := new real[|idf|](_ => 0.0);
      sumSq := 0.0;
      var todo := tf.Keys;
      SumOfZeros(vec[..]);
      while todo != {}
        invariant todo <= tf.Keys
        invariant forall k :: 0 <= k < vec.Length ==> vec[k] == if k in tf && k !in todo then Weight(text, k) else 0.0
        invariant sumSq == SumSquares(vec[..])
      {
        var idx :| idx in todo;
        CountedColumnsExist(text, idx);
        var val := Times(tf[idx] as real, idf[idx]);
        SumAfterUpdate(vec[..], idx, val);
        vec[idx] := val;
        sumSq := sumSq + Times(val, val);
        todo := todo - {idx};
      }
      forall k | 0 <= k < vec.Length
        ensures vec[k] == Weight(text, k)
      {
        if k !in tf {
          TimesZero(idf[k]);
        }
      }
      assert vec[..] == Weights(text);
    }

    /** Step 3, again in any order; columns without a match are zero and stay so. */
    method Normalize(text: string, tf: map<nat, nat>, vec: array<real>, norm: real)
      requires Valid() && norm > 0.0
      requires forall idx :: idx in tf <==> Count(text, idx) > 0
      requires vec[..] == Weights(text)
      modifies vec
      ensures vec[..] == Over(Weights(text), norm)
    {
      var todo := tf.Keys;
      ghost var w := vec[..];
      while todo != {}
        invariant todo <= tf.Keys
        invariant forall k :: 0 <= k < vec.Length ==>
                    vec[k] == if k in tf && k !in todo then Ratio(w[k], norm) else w[k]
      {
        var idx :| idx in todo;
        CountedColumnsExist(text, idx);
        vec[idx] := Ratio(vec[idx], norm);
        todo := todo - {idx};
      }
      forall k | 0 <= k < vec.Length
        ensures vec[k] == Ratio(w[k], norm)
      {
        if k !in tf {
          TimesZero(idf[k]);
          RatioOfZero(norm);
        }
      }
      assert vec[..] == Over(Weights(text), norm);
    }

    function Transformed(text: string, sqrt: real -> real): seq<real> {
      Unit(Weights(text), sqrt)
    }

    /** Whatever order the map is ranged over in, the result is this one vector. */
    method Transform(text: string, sqrt: real -> real) returns (vec: array<real>)
      requires Valid() && IsSqrt(sqrt)
      ensures fresh(vec) && vec[..] == Transformed(text, sqrt)
    {
      var tf := CountTerms(text);
      var sumSq;
      vec, sumSq := ApplyIDF(text, tf);
      if sumSq > 0.0 {
        var norm := sqrt(sumSq);
        PositiveRoot(sumSq, sqrt);
        Normalize(text, tf, vec, norm);
      }
    }

    function Norm(text: string, sqrt: real -> real): real {
      var s := SumSquares(Weights(text));
      if s > 0.0 then sqrt(s) else 1.0
    }

    /** The sum of squares vanishes exactly when every count times its weight does. */
    lemma ZeroExactlyWhen(text: string)
      ensures SumSquares(Weights(text)) == 0.0
              <==> forall k :: 0 <= k < |idf| ==> |Occurrences(text, k)| as real * idf[k] == 0.0
    {
      var w := Weights(text);
      SumSquaresSign(w);
      assert forall k :: 0 <= k < |idf| ==> w[k] == |Occurrences(text, k)| as real * idf[k];
      if forall k :: 0 <= k < |w| ==> w[k] == 0.0 {
        SumOfZeros(w);
      }
    }

    /** Every column is the same multiple of its count times its frequency weight; one that no
        n-gram maps to is zero. */
    lemma TransformIsProportional(text: string, sqrt: real -> real, k: nat)
      requires IsSqrt(sqrt) && k < |idf|
      ensures |Transformed(text, sqrt)| == |idf| && Norm(text, sqrt) > 0.0
      ensures Times(Transformed(text, sqrt)[k], Norm(text, sqrt)) == |Occurrences(text, k)| as real * idf[k]
      ensures Occurrences(text, k) == {} ==> Transformed(text, sqrt)[k] == 0.0
    {
      var w := Weights(text);
      var scale := Norm(text, sqrt);
      if SumSquares(w) > 0.0 {
        PositiveRoot(SumSquares(w), sqrt);
      }
      TimesZero(idf[k]);
      RatioOfZero(scale);
      RatioTimes(w[k], scale);
      TimesOne(w[k]);
    }

    /** The vector is zero, exactly when every count times its weight is, or has unit length;
        a column no n-gram maps to is zero; every column is the same multiple of its count
        times its frequency weight. */
    lemma TransformIsUnit(text: string, sqrt: real -> real)
      requires IsSqrt(sqrt)
      ensures |Transformed(text, sqrt)| == |idf| && Norm(text, sqrt) > 0.0
      ensures forall k :: 0 <= k < |idf| && Count(text, k) == 0 ==> Transformed(text, sqrt)[k] == 0.0
      ensures forall k :: 0 <= k < |idf| ==>
                Times(Transformed(text, sqrt)[k], Norm(text, sqrt)) == |Occurrences(text, k)| as real * idf[k]
      ensures if forall k :: 0 <= k < |idf| ==> |Occurrences(text, k)| as real * idf[k] == 0.0
              then forall k :: 0 <= k < |idf| ==> Transformed(text, sqrt)[k] == 0.0
              else SumSquares(Transformed(text, sqrt)) == 1.0
    {
      var w := Weights(text);
      SumSquaresSign(w);
      ZeroExactlyWhen(text);
      if SumSquares(w) > 0.0 {
        PositiveRoot(SumSquares(w), sqrt);
        UnitLength(w, Norm(text, sqrt));
      }
      forall k | 0 <= k < |idf|
        ensures Times(Transformed(text, sqrt)[k], Norm(text, sqrt)) == |Occurrences(text, k)| as real * idf[k]
        ensures Count(text, k) == 0 ==> Transformed(text, sqrt)[k] == 0.0
      {
        TransformIsProportional(text, sqrt, k);
        assert Count(text, k) == 0 ==> Occurrences(text, k) == {};
      }
    }
  }

  function Get(tf: map<nat, nat>, idx: nat): nat {
    if idx in tf then tf[idx] else 0
  }

  function SumSquares(xs: seq<real>): real {
    if xs == [] then 0.0 else SumSquares(xs[..|xs| - 1]) + Square(xs[|xs| - 1])
  }

  function Over(xs: seq<real>, norm: real): seq<real>
    requires norm != 0.0
  {
    seq(|xs|, k requires 0 <= k < |xs| => Ratio(xs[k], norm))
  }

  function Unit(xs: seq<real>, sqrt: real -> real): seq<real> {
    var s := SumSquares(xs);
    if s > 0.0 && sqrt(s) != 0.0 then Over(xs, sqrt(s)) else xs
  }

  lemma TimesZero(x: real)
    ensures Times(0.0, x) == 0.0 && Times(x, 0.0) == 0.0
  {
  }

  lemma TimesOne(x: real)
    ensures Times(x, 1.0) == x
  {
  }

  lemma RatioOfZero(norm: real)
    requires norm != 0.0
    ensures Ratio(0.0, norm) == 0.0
  {
  }

  lemma RatioTimes(x: real, norm: real)
    requires norm != 0.0
    ensures Times(Ratio(x, norm), norm) == x
  {
  }

  lemma PositiveRoot(x: real, sqrt: real -> real)
    requires IsSqrt(sqrt) && x > 0.0
    ensures sqrt(x) > 0.0
  {
    TimesZero(0.0);
  }

  lemma {:induction false} SumOfZeros(xs: seq<real>)
    requires forall k :: 0 <= k < |xs| ==> xs[k] == 0.0
    ensures SumSquares(xs) == 0.0
  {
    if xs != [] {
      SumOfZeros(xs[..|xs| - 1]);
      TimesZero(0.0);
    }
  }

  /** Filling in a zero entry adds its square. */
  lemma {:induction false} SumAfterUpdate(xs: seq<real>, i: nat, x: real)
    requires i < |xs| && xs[i] == 0.0
    ensures SumSquares(xs[i := x]) == SumSquares(xs) + Times(x, x)
  {
    var n := |xs| - 1;
    TimesZero(0.0);
    if i == n {
      assert xs[i := x][..n] == xs[..n];
    } else {
      SumAfterUpdate(xs[..n], i, x);
      assert xs[i := x][..n] == xs[..n][i := x];
    }
  }

  lemma {:induction false} SumSquaresSign(xs: seq<real>)
    ensures SumSquares(xs) >= 0.0
    ensures SumSquares(xs) == 0.0 ==> forall k :: 0 <= k < |xs| ==> xs[k] == 0.0
  {
    if xs != [] {
      var n := |xs| - 1;
      SumSquaresSign(xs[..n]);
      SquareZero(xs[n]);
      if SumSquares(xs) == 0.0 {
        forall k | 0 <= k < |xs|
          ensures xs[k] == 0.0
        {
          if k < n {
            assert xs[k] == xs[..n][k];
          }
        }
      }
    }
  }

  lemma SquareOver(x: real, norm: real)
    requires norm > 0.0
    ensures Times(Square(Ratio(x, norm)), Square(norm)) == Square(x)
  {
    var q := Ratio(x, norm);
    RatioTimes(x, norm);
    assert (q * q) * (norm * norm) == (q * norm) * (q * norm);
  }

  lemma TimesAdd(x: real, y: real, z: real)
    ensures Times(x + y, z) == Times(x, z) + Times(y, z)
  {
  }

  lemma {:induction false} SumSquaresOver(xs: seq<real>, norm: real)
    requires norm > 0.0
    ensures Times(SumSquares(Over(xs, norm)), Square(norm)) == SumSquares(xs)
  {
    if xs == [] {
      TimesZero(Square(norm));
    } else {
      var n := |xs| - 1;
      SumSquaresOver(xs[..n], norm);
      assert Over(xs, norm)[..n] == Over(xs[..n], norm);
      SquareOver(xs[n], norm);
      TimesAdd(SumSquares(Over(xs[..n], norm)), Square(Ratio(xs[n], norm)), Square(norm));
    }
  }

  lemma CancelOne(x: real, y: real)
    requires y > 0.0 && Times(x, y) == y
    ensures x == 1.0
  {
    assert (x * y) / y == x && y / y == 1.0;
  }

  lemma UnitLength(xs: seq<real>, norm: real)
    requires norm > 0.0 && Square(norm) == SumSquares(xs) > 0.0
    ensures SumSquares(Over(xs, norm)) == 1.0
  {
    SumSquaresOver(xs, norm);
    CancelOne(SumSquares(Over(xs, norm)), SumSquares(xs));
  }
}
