/**
  The draft calculator of hs_arena_kit.py.  Its constructor accepts a card
  pool in one of three shapes (three parallel lists, a list of
  (weight, name, score) tuples, or a table with three named columns),
  normalises it into the parallel lists `weights`, `names` and `scores`, and
  builds `cumWeights`, the running total of the weights, which is the index a
  weighted offer search relies on.
*/
module ArenaKit {
  import opened Results

  // ---------------------------------------------------------------------
  // The prefix-sum index
  // ---------------------------------------------------------------------

  /** Total of a sequence of weights, added from the front. */
  function Sum(w: seq<real>): real
  {
    if w == [] then 0.0 else w[0] + Sum(w[1..])
  }

  /** The running totals of `w` on top of `acc`: one accumulator step per weight. */
  function CumSumFrom(acc: real, w: seq<real>): (c: seq<real>)
    decreases w
    ensures |c| == |w|
  {
    if w == [] then [] else [acc + w[0]] + CumSumFrom(acc + w[0], w[1..])
  }

  /** numpy's cumsum over exact (non-floating) weights. */
  function CumSum(w: seq<real>): (c: seq<real>)
    ensures |c| == |w|
  {
    CumSumFrom(0.0, w)
  }

  predicate NonNegative(w: seq<real>)
  {
    forall i :: 0 <= i < |w| ==> 0.0 <= w[i]
  }

  predicate Positive(w: seq<real>)
  {
    forall i :: 0 <= i < |w| ==> 0.0 < w[i]
  }

  predicate NonDecreasing(c: seq<real>)
  {
    forall i, j :: 0 <= i <= j < |c| ==> c[i] <= c[j]
  }

  predicate Increasing(c: seq<real>)
  {
    forall i, j :: 0 <= i < j < |c| ==> c[i] < c[j]
  }

  lemma {:induction false} CumSumFromAt(acc: real, w: seq<real>, i: nat)
    requires i < |w|
    decreases i
    ensures CumSumFrom(acc, w)[i] == acc + Sum(w[..i + 1])
  {
    assert w[..i + 1][0] == w[0];
    assert w[..i + 1][1..] == w[1..][..i];
    if i == 0 {
      assert w[1..][..0] == [];
    } else {
      CumSumFromAt(acc + w[0], w[1..], i - 1);
    }
  }

  /** Entry i of the index is the total of the first i + 1 weights. */
  lemma CumSumAt(w: seq<real>, i: nat)
    requires i < |w|
    ensures CumSum(w)[i] == Sum(w[..i + 1])
  {
    CumSumFromAt(0.0, w, i);
  }

  /** The last entry of the index is the total weight. */
  lemma CumSumLast(w: seq<real>)
    requires |w| > 0
    ensures CumSum(w)[|w| - 1] == Sum(w)
  {
    CumSumAt(w, |w| - 1);
    assert w[..|w|] == w;
  }

  lemma {:induction false} CumSumFromMonotone(acc: real, w: seq<real>)
    requires NonNegative(w)
    decreases w
    ensures forall i :: 0 <= i < |w| ==> acc <= CumSumFrom(acc, w)[i]
    ensures NonDecreasing(CumSumFrom(acc, w))
  {
    if w != [] {
      var rest := w[1..];
      assert NonNegative(rest) by {
        forall k | 0 <= k < |rest| ensures 0.0 <= rest[k] { assert rest[k] == w[k + 1]; }
      }
      CumSumFromMonotone(acc + w[0], rest);
      var c := CumSumFrom(acc, w);
      assert forall k :: 0 < k < |c| ==> c[k] == CumSumFrom(acc + w[0], rest)[k - 1];
      assert 0.0 <= w[0];
    }
  }

  /** With non-negative weights (probabilities) the index never decreases. */
  lemma CumSumNonDecreasing(w: seq<real>)
    requires NonNegative(w)
    ensures NonDecreasing(CumSum(w))
  {
    CumSumFromMonotone(0.0, w);
  }

  lemma {:induction false} CumSumFromStrict(acc: real, w: seq<real>)
    requires Positive(w)
    decreases w
    ensures forall i :: 0 <= i < |w| ==> acc < CumSumFrom(acc, w)[i]
    ensures Increasing(CumSumFrom(acc, w))
  {
    if w != [] {
      var rest := w[1..];
      assert Positive(rest) by {
        forall k | 0 <= k < |rest| ensures 0.0 < rest[k] { assert rest[k] == w[k + 1]; }
      }
      CumSumFromStrict(acc + w[0], rest);
      var c := CumSumFrom(acc, w);
      assert forall k :: 0 < k < |c| ==> c[k] == CumSumFrom(acc + w[0], rest)[k - 1];
      assert 0.0 < w[0];
    }
  }

  /** With strictly positive weights every entry of the index is larger than the one before. */
  lemma CumSumIncreasing(w: seq<real>)
    requires Positive(w)
    ensures Increasing(CumSum(w))
  {
    CumSumFromStrict(0.0, w);
  }

  // ---------------------------------------------------------------------
  // The tuple input mode
  // ---------------------------------------------------------------------

  /** One card as the tuple input mode gives it: (weight, name, score). */
  datatype CardTuple = CardTuple(weight: real, name: string, score: real)

  /** The 0th component of every tuple, in order. */
  function TupleWeights(ts: seq<CardTuple>): seq<real>
  {
    seq(|ts|, i requires 0 <= i < |ts| => ts[i].weight)
  }

  /** The 1st component of every tuple, in order. */
  function TupleNames(ts: seq<CardTuple>): seq<string>
  {
    seq(|ts|, i requires 0 <= i < |ts| => ts[i].name)
  }

  /** The 2nd component of every tuple, in order. */
  function TupleScores(ts: seq<CardTuple>): seq<real>
  {
    seq(|ts|, i requires 0 <= i < |ts| => ts[i].score)
  }

  function Min3(a: nat, b: nat, c: nat): nat
  {
    if a <= b && a <= c then a else if b <= c then b else c
  }

  /** Python's zip of three lists: one tuple per position, stopping at the shortest list. */
  function Zip(w: seq<real>, n: seq<string>, s: seq<real>): (ts: seq<CardTuple>)
    ensures |ts| == Min3(|w|, |n|, |s|)
  {
    if w == [] || n == [] || s == [] then []
    else [CardTuple(w[0], n[0], s[0])] + Zip(w[1..], n[1..], s[1..])
  }

  /** Unzipping the tuples and zipping the three lists again gives the tuples back. */
  lemma {:induction false} ZipUnzip(ts: seq<CardTuple>)
    ensures |TupleWeights(ts)| == |TupleNames(ts)| == |TupleScores(ts)| == |ts|
    ensures Zip(TupleWeights(ts), TupleNames(ts), TupleScores(ts)) == ts
  {
    if ts != [] {
      ZipUnzip(ts[1..]);
      assert TupleWeights(ts)[1..] == TupleWeights(ts[1..]);
      assert TupleNames(ts)[1..] == TupleNames(ts[1..]);
      assert TupleScores(ts)[1..] == TupleScores(ts[1..]);
    }
  }

  /** Three lists of one length survive zipping and unzipping unchanged. */
  lemma {:induction false} UnzipZip(w: seq<real>, n: seq<string>, s: seq<real>)
    requires |w| == |n| == |s|
    ensures TupleWeights(Zip(w, n, s)) == w
    ensures TupleNames(Zip(w, n, s)) == n
    ensures TupleScores(Zip(w, n, s)) == s
  {
    if w != [] {
      UnzipZip(w[1..], n[1..], s[1..]);
      var ts := Zip(w, n, s);
      assert ts[1..] == Zip(w[1..], n[1..], s[1..]);
      assert TupleWeights(ts) == [w[0]] + TupleWeights(ts[1..]);
      assert TupleNames(ts) == [n[0]] + TupleNames(ts[1..]);
      assert TupleScores(ts) == [s[0]] + TupleScores(ts[1..]);
    }
  }

  // ---------------------------------------------------------------------
  // The table input mode
  // ---------------------------------------------------------------------

  /** A table column: numbers (weights, scores) or text (names). */
  datatype Column = Numbers(numbers: seq<real>) | Labels(labels: seq<string>)
  {
    function Length(): nat
    {
      match this
      case Numbers(xs) => |xs|
      case Labels(xs) => |xs|
    }
  }

  /** A table: its columns by header. */
  type Frame = map<string, Column>

  /** Every column of a table has one entry per row. */
  predicate Rectangular(df: Frame)
  {
    forall a, b :: a in df && b in df ==> df[a].Length() == df[b].Length()
  }

  /** What the constructor raises when the table mode cannot read its three columns. */
  datatype InitError =
    | ColumnsNotGiven                 // df_cols is None and cannot be subscripted
    | NoSuchPosition(position: nat)   // df_cols has no entry at this position
    | NoSuchColumn(header: string)     // the table has no column with this header
    | WrongColumnKind(header: string)  // the column is not numeric (weights, scores) or not text (names)

  /** The normalised pool: three parallel lists. */
  datatype CardLists = CardLists(weights: seq<real>, names: seq<string>, scores: seq<real>)

  /** The column a table-mode lookup `card_df[df_cols[k]]` reads. */
  function ColumnAt(df: Frame, cols: seq<string>, k: nat): (r: Result<Column, InitError>)
    ensures r.Ok? <==> k < |cols| && cols[k] in df
    ensures r.Ok? ==> r.value == df[cols[k]]
  {
    if k >= |cols| then Err(NoSuchPosition(k))
    else if cols[k] !in df then Err(NoSuchColumn(cols[k]))
    else Ok(df[cols[k]])
  }

  /** All three lookups of the table mode succeed, and the columns have the kinds the pool needs. */
  predicate FrameReadable(df: Frame, cols: seq<string>)
  {
    && |cols| >= 3
    && cols[0] in df && cols[1] in df && cols[2] in df
    && df[cols[0]].Numbers? && df[cols[1]].Labels? && df[cols[2]].Numbers?
  }

  /** The table mode, lines 33-35: the lists are the columns named by df_cols[0], df_cols[1] and df_cols[2]. */
  function FrameLists(df: Frame, dfCols: Option<seq<string>>): (r: Result<CardLists, InitError>)
    ensures r.Ok? <==> dfCols.Some? && FrameReadable(df, dfCols.value)
    ensures r.Ok? ==> r.value == CardLists(df[dfCols.value[0]].numbers,
                                           df[dfCols.value[1]].labels,
                                           df[dfCols.value[2]].numbers)
    ensures dfCols.None? ==> r == Err(ColumnsNotGiven)
    ensures dfCols.Some? && |dfCols.value| == 0 ==> r == Err(NoSuchPosition(0))
    ensures dfCols.Some? && |dfCols.value| > 0 && dfCols.value[0] !in df ==> r == Err(NoSuchColumn(dfCols.value[0]))
  {
    if dfCols.None? then Err(ColumnsNotGiven)
    else
      var cols := dfCols.value;
      var w :- ColumnAt(df, cols, 0);
      var n :- ColumnAt(df, cols, 1);
      var s :- ColumnAt(df, cols, 2);
      if !w.Numbers? then Err(WrongColumnKind(cols[0]))
      else if !n.Labels? then Err(WrongColumnKind(cols[1]))
      else if !s.Numbers? then Err(WrongColumnKind(cols[2]))
      else Ok(CardLists(w.numbers, n.labels, s.numbers))
  }

  /** Unlike the list mode, the table mode always yields three lists of one length. */
  lemma FrameListsAligned(df: Frame, dfCols: Option<seq<string>>)
    requires Rectangular(df)
    requires FrameLists(df, dfCols).Ok?
    ensures var l := FrameLists(df, dfCols).value;
            |l.weights| == |l.names| == |l.scores|
  {
    var cols := dfCols.value;
    assert df[cols[0]].Length() == df[cols[1]].Length() == df[cols[2]].Length();
  }

  // ---------------------------------------------------------------------
  // Choosing the input mode
  // ---------------------------------------------------------------------

  datatype Mode = ListMode | FrameMode | TupleMode

  /** Tuples win over a table, and a table wins over the three lists. */
  function ChooseMode(tuplesGiven: bool, frameGiven: bool): (m: Mode)
    ensures m == TupleMode <==> tuplesGiven
    ensures m == FrameMode <==> !tuplesGiven && frameGiven
    ensures m == ListMode <==> !tuplesGiven && !frameGiven
  {
    if !tuplesGiven && !frameGiven then ListMode
    else if !tuplesGiven then FrameMode
    else TupleMode
  }

  // ---------------------------------------------------------------------
  // The calculator object
  // ---------------------------------------------------------------------

  class ArenaDraftCalculator {
    var weights: seq<real>
    var names: seq<string>
    var scores: seq<real>
    var cumWeights: seq<real>

    /** The offer index is the running total of the weights. */
    ghost predicate Valid()
      reads this
    {
      cumWeights == CumSum(weights)
    }

    /** List mode: the three lists are stored as given; their lengths are not compared. */
    constructor FromLists(cardWeights: seq<real>, cardNames: seq<string>, cardScores: seq<real>)
      ensures weights == cardWeights && names == cardNames && scores == cardScores
      ensures Valid()
    {
      weights := cardWeights;
      names := cardNames;
      scores := cardScores;
      cumWeights := CumSum(cardWeights);
    }

    /** Table mode, for a table whose three columns can be read. */
    constructor FromFrame(cardDf: Frame, dfCols: Option<seq<string>>)
      requires FrameLists(cardDf, dfCols).Ok?
      ensures CardLists(weights, names, scores) == FrameLists(cardDf, dfCols).value
      ensures Valid()
    {
      var lists := FrameLists(cardDf, dfCols).value;
      weights := lists.weights;
      names := lists.names;
      scores := lists.scores;
      cumWeights := CumSum(lists.weights);
    }

    /** Tuple mode: each list is one component of the tuples, in order. */
    constructor FromTuples(cardTuples: seq<CardTuple>)
      ensures weights == TupleWeights(cardTuples)
      ensures names == TupleNames(cardTuples)
      ensures scores == TupleScores(cardTuples)
      ensures Valid()
    {
      weights := TupleWeights(cardTuples);
      names := TupleNames(cardTuples);
      scores := TupleScores(cardTuples);
      cumWeights := CumSum(TupleWeights(cardTuples));
    }
  }

  /**
    The whole constructor call: picks the input mode, builds the object, and
    reports the error the table mode raises when its columns cannot be read.
    An absent `card_tuples` or `card_df` is `None`.
  */
  method NewCalculator(cardWeights: seq<real>, cardNames: seq<string>, cardScores: seq<real>,
                       cardTuples: Option<seq<CardTuple>>, cardDf: Option<Frame>,
                       dfCols: Option<seq<string>>)
    returns (r: Result<ArenaDraftCalculator, InitError>)
    ensures r.Ok? ==> fresh(r.value) && r.value.Valid()
    ensures ChooseMode(cardTuples.Some?, cardDf.Some?) == ListMode ==>
              r.Ok? && r.value.weights == cardWeights && r.value.names == cardNames && r.value.scores == cardScores
    ensures ChooseMode(cardTuples.Some?, cardDf.Some?) == FrameMode ==>
              match FrameLists(cardDf.value, dfCols)
              case Ok(lists) => r.Ok? && CardLists(r.value.weights, r.value.names, r.value.scores) == lists
              case Err(e) => r == Err(e)
    ensures ChooseMode(cardTuples.Some?, cardDf.Some?) == TupleMode ==>
              r.Ok? && r.value.weights == TupleWeights(cardTuples.value)
              && r.value.names == TupleNames(cardTuples.value) && r.value.scores == TupleScores(cardTuples.value)
  {
    if cardTuples.None? && cardDf.None? {
      var c := new ArenaDraftCalculator.FromLists(cardWeights, cardNames, cardScores);
      r := Ok(c);
    } else if cardTuples.None? {
      var lists := FrameLists(cardDf.value, dfCols);
      if lists.Err? {
        r := Err(lists.error);
      } else {
        var c := new ArenaDraftCalculator.FromFrame(cardDf.value, dfCols);
        r := Ok(c);
      }
    } else {
      var c := new ArenaDraftCalculator.FromTuples(cardTuples.value);
      r := Ok(c);
    }
  }

  /** What a tuple-mode calculator holds: zipping its lists back gives the tuples, and the index has one entry per card. */
  lemma TupleCalculatorRoundTrip(c: ArenaDraftCalculator, ts: seq<CardTuple>)
    requires c.Valid()
    requires c.weights == TupleWeights(ts) && c.names == TupleNames(ts) && c.scores == TupleScores(ts)
    ensures Zip(c.weights, c.names, c.scores) == ts
    ensures |c.cumWeights| == |c.weights| == |c.names| == |c.scores| == |ts|
  {
    ZipUnzip(ts);
  }

  /** What every calculator's index satisfies: one entry per weight, entry i totals the first i + 1 weights, the last is the total. */
  lemma CalculatorIndex(c: ArenaDraftCalculator)
    requires c.Valid()
    ensures |c.cumWeights| == |c.weights|
    ensures forall i :: 0 <= i < |c.weights| ==> c.cumWeights[i] == Sum(c.weights[..i + 1])
    ensures |c.weights| > 0 ==> c.cumWeights[|c.weights| - 1] == Sum(c.weights)
    ensures NonNegative(c.weights) ==> NonDecreasing(c.cumWeights)
  {
    forall i | 0 <= i < |c.weights| ensures c.cumWeights[i] == Sum(c.weights[..i + 1]) {
      CumSumAt(c.weights, i);
    }
    if |c.weights| > 0 { CumSumLast(c.weights); }
    if NonNegative(c.weights) { CumSumNonDecreasing(c.weights); }
  }
}
