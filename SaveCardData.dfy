/**
  save_card_data.py after its two fetches: split the arena table into one pool
  per class (the class's own cards followed by the neutral cards; the 'any'
  pool holds only the neutral cards, tagged NEUTRAL), attach each row's score
  from that class's dictionary, concatenate the pools in class order and keep
  the rows that have a score.
*/
module SaveCardData {
  import opened Results
  import opened Cards

  /** The label a class's pool rows carry in the class column. */
  function PoolTag(cls: string): string
  {
    if cls != "any" then Upper(cls) else "NEUTRAL"
  }

  /** Whether a card belongs in a class's pool: its own class's cards and the neutral ones; only neutral ones for 'any'. */
  predicate InPool(x: Record, cls: string)
  {
    Cell(x, "playerClass") == Text("NEUTRAL") || (cls != "any" && Cell(x, "playerClass") == Text(Upper(cls)))
  }

  /** The pool the loop stores for one class. */
  function Pool(arena: seq<Record>, cls: string): seq<Record>
  {
    var neutral := ClassRows(arena, "NEUTRAL");
    if cls != "any" then Tag(ClassRows(arena, Upper(cls)) + neutral, Upper(cls))
    else Tag(neutral, "NEUTRAL")
  }

  /** The pools of the given classes, by class. */
  function Pools(arena: seq<Record>, classes: seq<string>): map<string, seq<Record>>
  {
    map c | c in classes :: Pool(arena, c)
  }

  /** The loop over the classes (CLASSES in the script) that fills `df_dict`, one pool per class. */
  method Partition(arena: seq<Record>, classes: seq<string>) returns (dfDict: map<string, seq<Record>>)
    ensures dfDict == Pools(arena, classes)
  {
    dfDict := map c | c in classes :: [];
    var neutral := ClassRows(arena, "NEUTRAL");
    var i := 0;
    while i < |classes|
      invariant 0 <= i <= |classes|
      invariant dfDict.Keys == set c | c in classes
      invariant forall c :: c in classes[..i] ==> dfDict[c] == Pool(arena, c)
    {
      var c := classes[i];
      var classDf;
      if c != "any" {
        classDf := ClassRows(arena, Upper(c));
        classDf := classDf + neutral;
        classDf := Tag(classDf, Upper(c));
      } else {
        classDf := neutral;
        classDf := Tag(classDf, "NEUTRAL");
      }
      dfDict := dfDict[c := classDf];
      assert classes[..i + 1] == classes[..i] + [c];
      i := i + 1;
    }
    assert classes[..i] == classes;
  }

  /**
    A pool is its class's cards followed by the neutral cards (only the
    neutral cards for 'any'), in table order, each tagged with the pool's label.
  */
  lemma PoolShape(arena: seq<Record>, cls: string)
    requires Untagged?(arena)
    ensures var own := if cls != "any" then ClassRows(arena, Upper(cls)) else [];
            && |Pool(arena, cls)| == |own| + |ClassRows(arena, "NEUTRAL")|
            && Untag(Pool(arena, cls)) == own + ClassRows(arena, "NEUTRAL")
            && forall i :: 0 <= i < |Pool(arena, cls)| ==> Cell(Pool(arena, cls)[i], SCORE_CLASS) == Text(PoolTag(cls))
  {
    var own := if cls != "any" then ClassRows(arena, Upper(cls)) else [];
    ClassRowsUntagged(arena, "NEUTRAL");
    ClassRowsUntagged(arena, Upper(cls));
    var rows := own + ClassRows(arena, "NEUTRAL");
    assert Untagged?(rows);
    assert cls == "any" ==> rows == ClassRows(arena, "NEUTRAL");
    TagUntag(rows, PoolTag(cls));
  }

  /** Every table card of the pool's classes is in the pool exactly as often as in the table, and no other card is. */
  lemma PoolCount(arena: seq<Record>, cls: string, x: Record)
    requires Upper(cls) != "NEUTRAL"
    requires Untagged?(arena) && SCORE_CLASS !in x
    ensures multiset(Pool(arena, cls))[Tagged(x, PoolTag(cls))] == if InPool(x, cls) then multiset(arena)[x] else 0
  {
    var own := if cls != "any" then ClassRows(arena, Upper(cls)) else [];
    var rows := own + ClassRows(arena, "NEUTRAL");
    ClassRowsUntagged(arena, "NEUTRAL");
    ClassRowsUntagged(arena, Upper(cls));
    assert Untagged?(rows);
    assert cls == "any" ==> rows == ClassRows(arena, "NEUTRAL");
    TagCount(rows, PoolTag(cls), x);
    ClassRowsCount(arena, "NEUTRAL", x);
    ClassRowsCount(arena, Upper(cls), x);
    assert multiset(rows) == multiset(own) + multiset(ClassRows(arena, "NEUTRAL"));
  }

  // ---------------------------------------------------------------------
  // Scores
  // ---------------------------------------------------------------------

  /** Whether `dict.get` can look the value up: a list cell is unhashable. */
  predicate Hashable(v: Value)
  {
    !v.Items?
  }

  /** Every row's name can be looked up. */
  predicate NamesHashable(rows: seq<Record>)
  {
    forall i :: 0 <= i < |rows| ==> Hashable(Cell(rows[i], "name"))
  }

  /**
    get_score: the dictionary's score for a card name, absent (None, NaN) when
    the name is not a key; a list-valued name raises TypeError.
  */
  function GetScore(name: Value, d: map<string, int>): (r: Result<Value, ScriptError>)
    ensures r.Err? <==> !Hashable(name)
    ensures r.Err? ==> r.error == UnhashableName(name)
    ensures r.Ok? ==> (r.value != Null <==> name.Text? && name.text in d)
    ensures r.Ok? && r.value != Null ==> r.value == Number(d[name.text])
  {
    if !Hashable(name) then Err(UnhashableName(name))
    else if name.Text? && name.text in d then Ok(Number(d[name.text]))
    else Ok(Null)
  }

  /** A row with its score column set from the dictionary. */
  function Scored(r: Record, d: map<string, int>): Record
    requires Hashable(Cell(r, "name"))
  {
    r[SCORE := GetScore(Cell(r, "name"), d).value]
  }

  /** The pool after `df['arenaScore'] = df['name'].apply(get_score, args=(d,))`, when every name can be looked up. */
  function WithScores(rows: seq<Record>, d: map<string, int>): (t: seq<Record>)
    requires NamesHashable(rows)
    ensures |t| == |rows|
    ensures forall i :: 0 <= i < |rows| ==>
              && Cell(t[i], SCORE) == GetScore(Cell(rows[i], "name"), d).value
              && t[i] - {SCORE} == rows[i] - {SCORE}
  {
    seq(|rows|, i requires 0 <= i < |rows| => Scored(rows[i], d))
  }

  /**
    The score assignment of one pool: `apply` calls get_score on the names in
    row order, so it stops at the first name that cannot be looked up.
  */
  function ApplyScores(rows: seq<Record>, d: map<string, int>): (r: Result<seq<Record>, ScriptError>)
    decreases |rows|
    ensures r.Ok? <==> NamesHashable(rows)
    ensures r.Ok? ==> r.value == WithScores(rows, d)
    ensures r.Err? ==> exists i :: 0 <= i < |rows| && !Hashable(Cell(rows[i], "name"))
                                   && (forall j :: 0 <= j < i ==> Hashable(Cell(rows[j], "name")))
                                   && r.error == UnhashableName(Cell(rows[i], "name"))
  {
    if rows == [] then Ok([])
    else
      var v :- GetScore(Cell(rows[0], "name"), d);
      var rest :- ApplyScores(rows[1..], d);
      WithScoresCons(rows, d);
      Ok([rows[0][SCORE := v]] + rest)
  }

  lemma WithScoresCons(rows: seq<Record>, d: map<string, int>)
    requires rows != [] && Hashable(Cell(rows[0], "name")) && NamesHashable(rows[1..])
    ensures NamesHashable(rows)
    ensures WithScores(rows, d) == [Scored(rows[0], d)] + WithScores(rows[1..], d)
  {
    assert forall i :: 0 < i < |rows| ==> rows[i] == rows[1..][i - 1];
  }

  /**
    The loop that adds the score column to every pool, using the dictionary of
    the pool's class; it stops with the first pool whose scoring raises.
  */
  method AttachScores(classes: seq<string>, dfDict: map<string, seq<Record>>, scoreDict: map<string, map<string, int>>)
    returns (r: Result<map<string, seq<Record>>, ScriptError>)
    requires Distinct(classes)
    requires forall c :: c in classes ==> c in dfDict && c in scoreDict
    ensures r.Ok? <==> forall c :: c in classes ==> NamesHashable(dfDict[c])
    ensures r.Ok? ==> r.value.Keys == dfDict.Keys
    ensures r.Ok? ==> forall c :: c in classes ==> r.value[c] == WithScores(dfDict[c], scoreDict[c])
    ensures r.Ok? ==> forall c :: c in dfDict && c !in classes ==> r.value[c] == dfDict[c]
    ensures r.Err? ==> exists k :: 0 <= k < |classes| && !NamesHashable(dfDict[classes[k]])
                                   && (forall j :: 0 <= j < k ==> NamesHashable(dfDict[classes[j]]))
                                   && r.error == ApplyScores(dfDict[classes[k]], scoreDict[classes[k]]).error
  {
    var scored := dfDict;
    var i := 0;
    while i < |classes|
      invariant 0 <= i <= |classes|
      invariant scored.Keys == dfDict.Keys
      invariant forall j :: 0 <= j < i ==> NamesHashable(dfDict[classes[j]])
      invariant forall c :: c in classes[..i] ==> NamesHashable(dfDict[c]) && scored[c] == WithScores(dfDict[c], scoreDict[c])
      invariant forall c :: c in dfDict && c !in classes[..i] ==> scored[c] == dfDict[c]
    {
      var c := classes[i];
      assert c !in classes[..i];
      var s := ApplyScores(scored[c], scoreDict[c]);
      if s.Err? {
        return Err(s.error);
      }
      scored := scored[c := s.value];
      assert classes[..i + 1] == classes[..i] + [c];
      i := i + 1;
    }
    assert classes[..i] == classes;
    r := Ok(scored);
  }

  // ---------------------------------------------------------------------
  // The combined table
  // ---------------------------------------------------------------------

  /** `pd.concat` of the pools, in the given order. */
  function Concat(pools: map<string, seq<Record>>, order: seq<string>): (t: seq<Record>)
    requires forall c :: c in order ==> c in pools
  {
    if order == [] then [] else pools[order[0]] + Concat(pools, order[1..])
  }

  /** The total number of rows of the pools in `order`. */
  function TotalSize(pools: map<string, seq<Record>>, order: seq<string>): nat
    requires forall c :: c in order ==> c in pools
  {
    if order == [] then 0 else |pools[order[0]]| + TotalSize(pools, order[1..])
  }

  /** The rows whose score is present, in order. */
  function KeepScored(rows: seq<Record>): (t: seq<Record>)
    ensures |t| <= |rows|
    ensures forall r :: r in t <==> r in rows && Cell(r, SCORE) != Null
  {
    if rows == [] then []
    else (if Cell(rows[0], SCORE) != Null then [rows[0]] else []) + KeepScored(rows[1..])
  }

  /** The mask keeps every scored row as often as it occurs, and no unscored row. */
  lemma {:induction false} KeepScoredCount(rows: seq<Record>, x: Record)
    ensures multiset(KeepScored(rows))[x] == if Cell(x, SCORE) != Null then multiset(rows)[x] else 0
  {
    if rows != [] {
      KeepScoredCount(rows[1..], x);
      assert rows == [rows[0]] + rows[1..];
    }
  }

  /** The concatenation holds exactly the rows of the pools, and as many as they have together. */
  lemma {:induction false} ConcatContents(pools: map<string, seq<Record>>, order: seq<string>)
    requires forall c :: c in order ==> c in pools
    ensures |Concat(pools, order)| == TotalSize(pools, order)
    ensures forall r :: r in Concat(pools, order) <==> exists k :: 0 <= k < |order| && r in pools[order[k]]
  {
    if order != [] {
      ConcatContents(pools, order[1..]);
      forall r | r in Concat(pools, order)
        ensures exists k :: 0 <= k < |order| && r in pools[order[k]]
      {
        if r !in pools[order[0]] {
          var k :| 0 <= k < |order[1..]| && r in pools[order[1..][k]];
          assert r in pools[order[k + 1]];
        }
      }
      forall r | exists k :: 0 <= k < |order| && r in pools[order[k]]
        ensures r in Concat(pools, order)
      {
        var k :| 0 <= k < |order| && r in pools[order[k]];
        if k > 0 { assert order[1..][k - 1] == order[k]; }
      }
    }
  }

  /** Every pool's names can be looked up. */
  predicate PoolsHashable(arena: seq<Record>, classes: seq<string>)
  {
    forall c :: c in classes ==> NamesHashable(Pool(arena, c))
  }

  /** Every pool row is a table card of the pool's classes, labelled. */
  lemma PoolRowSource(arena: seq<Record>, cls: string, i: nat) returns (x: Record)
    requires i < |Pool(arena, cls)|
    ensures x in arena && InPool(x, cls) && Pool(arena, cls)[i] == Tagged(x, PoolTag(cls))
  {
    var rows := if cls != "any" then ClassRows(arena, Upper(cls)) + ClassRows(arena, "NEUTRAL") else ClassRows(arena, "NEUTRAL");
    assert Pool(arena, cls) == Tag(rows, PoolTag(cls));
    x := rows[i];
    assert x in rows;
  }

  /** A pool's names can be looked up exactly when those of the table cards it draws on can. */
  lemma PoolNamesHashable(arena: seq<Record>, cls: string)
    requires Upper(cls) != "NEUTRAL"
    ensures NamesHashable(Pool(arena, cls)) <==> forall x :: x in arena && InPool(x, cls) ==> Hashable(Cell(x, "name"))
  {
    var pool := Pool(arena, cls);
    if NamesHashable(pool) {
      forall x | x in arena && InPool(x, cls) ensures Hashable(Cell(x, "name")) {
        var rows := if cls != "any" then ClassRows(arena, Upper(cls)) + ClassRows(arena, "NEUTRAL") else ClassRows(arena, "NEUTRAL");
        assert pool == Tag(rows, PoolTag(cls));
        assert x in rows;
        var i :| 0 <= i < |rows| && rows[i] == x;
        assert Cell(pool[i], "name") == Cell(x, "name");
      }
    } else {
      var i :| 0 <= i < |pool| && !Hashable(Cell(pool[i], "name"));
      var x := PoolRowSource(arena, cls, i);
      assert Cell(pool[i], "name") == Cell(x, "name");
    }
  }

  /** The scored pools, by class. */
  function ScoredPools(arena: seq<Record>, classes: seq<string>, dicts: map<string, map<string, int>>)
    : (pools: map<string, seq<Record>>)
    requires forall c :: c in classes ==> c in dicts
    requires PoolsHashable(arena, classes)
  {
    map c | c in classes :: WithScores(Pool(arena, c), dicts[c])
  }

  /** The table the script writes: the scored pools in class order, without the unscored rows. */
  function FinalTable(arena: seq<Record>, classes: seq<string>, dicts: map<string, map<string, int>>): seq<Record>
    requires forall c :: c in classes ==> c in dicts
    requires PoolsHashable(arena, classes)
  {
    KeepScored(Concat(ScoredPools(arena, classes, dicts), classes))
  }

  /** The written table is never longer than the pools together. */
  lemma FinalTableBound(arena: seq<Record>, classes: seq<string>, dicts: map<string, map<string, int>>)
    requires forall c :: c in classes ==> c in dicts
    requires PoolsHashable(arena, classes)
    ensures |FinalTable(arena, classes, dicts)| <= TotalSize(Pools(arena, classes), classes)
  {
    var scored := ScoredPools(arena, classes, dicts);
    ConcatContents(scored, classes);
    SameSizes(scored, Pools(arena, classes), classes);
  }

  lemma {:induction false} SameSizes(p: map<string, seq<Record>>, q: map<string, seq<Record>>, order: seq<string>)
    requires forall c :: c in order ==> c in p && c in q && |p[c]| == |q[c]|
    ensures TotalSize(p, order) == TotalSize(q, order)
  {
    if order != [] {
      SameSizes(p, q, order[1..]);
    }
  }

  /**
    Every written row comes from some class's pool, carries that pool's label,
    and has the score its name has in that class's dictionary.
  */
  lemma FinalTableRows(arena: seq<Record>, classes: seq<string>, dicts: map<string, map<string, int>>, r: Record)
    requires forall c :: c in classes ==> c in dicts
    requires PoolsHashable(arena, classes)
    requires r in FinalTable(arena, classes, dicts)
    ensures exists c :: c in classes && r in ScoredPools(arena, classes, dicts)[c] && RowScoredBy(r, c, dicts[c])
  {
    var pools := ScoredPools(arena, classes, dicts);
    assert r in Concat(pools, classes) && Cell(r, SCORE) != Null;
    var c, i := ConcatSource(pools, classes, r);
    ScoredPoolRow(arena, c, dicts[c], i);
  }

  /** The class and the position in its pool that a combined row comes from. */
  lemma {:induction false} ConcatSource(pools: map<string, seq<Record>>, order: seq<string>, r: Record)
    returns (c: string, i: nat)
    requires forall c :: c in order ==> c in pools
    requires r in Concat(pools, order)
    ensures c in order && i < |pools[c]| && pools[c][i] == r
  {
    if r in pools[order[0]] {
      c := order[0];
      i :| i < |pools[c]| && pools[c][i] == r;
    } else {
      c, i := ConcatSource(pools, order[1..], r);
    }
  }

  /** A scored pool row whose score is present is scored by the pool's class. */
  lemma ScoredPoolRow(arena: seq<Record>, cls: string, d: map<string, int>, i: nat)
    requires i < |Pool(arena, cls)| && NamesHashable(Pool(arena, cls))
    requires Cell(WithScores(Pool(arena, cls), d)[i], SCORE) != Null
    ensures RowScoredBy(WithScores(Pool(arena, cls), d)[i], cls, d)
  {
    var pool := Pool(arena, cls);
    var rows := if cls != "any" then ClassRows(arena, Upper(cls)) + ClassRows(arena, "NEUTRAL") else ClassRows(arena, "NEUTRAL");
    assert pool == Tag(rows, PoolTag(cls));
    assert pool[i] == Tagged(rows[i], PoolTag(cls));
    var r := WithScores(pool, d)[i];
    assert r == Scored(pool[i], d);
    assert Cell(r, "name") == Cell(pool[i], "name");
  }

  /** A row labelled for class `cls` whose score is its name's score in `d`. */
  predicate RowScoredBy(r: Record, cls: string, d: map<string, int>)
  {
    && Cell(r, SCORE_CLASS) == Text(PoolTag(cls))
    && Cell(r, "name").Text? && Cell(r, "name").text in d
    && Cell(r, SCORE) == Number(d[Cell(r, "name").text])
  }

  /** Conversely, every table card whose name the class's dictionary knows is written, labelled and scored for that class. */
  lemma FinalTableKeeps(arena: seq<Record>, classes: seq<string>, dicts: map<string, map<string, int>>,
                        x: Record, cls: string)
    requires forall c :: c in classes ==> c in dicts
    requires PoolsHashable(arena, classes)
    requires cls in classes && Upper(cls) != "NEUTRAL"
    requires Untagged?(arena) && x in arena && InPool(x, cls)
    requires Cell(x, "name").Text? && Cell(x, "name").text in dicts[cls]
    ensures Scored(Tagged(x, PoolTag(cls)), dicts[cls]) in FinalTable(arena, classes, dicts)
  {
    var pools := ScoredPools(arena, classes, dicts);
    var row := Tagged(x, PoolTag(cls));
    PoolHas(arena, cls, x);
    ScoredIn(Pool(arena, cls), dicts[cls], row);
    var k :| 0 <= k < |classes| && classes[k] == cls;
    ConcatContents(pools, classes);
    assert Scored(row, dicts[cls]) in pools[classes[k]];
    assert Cell(row, "name") == Cell(x, "name");
  }

  /** A table card of the pool's class or neutral is in the pool, tagged. */
  lemma PoolHas(arena: seq<Record>, cls: string, x: Record)
    requires Upper(cls) != "NEUTRAL"
    requires Untagged?(arena) && x in arena && InPool(x, cls)
    ensures Tagged(x, PoolTag(cls)) in Pool(arena, cls)
  {
    var xi :| 0 <= xi < |arena| && arena[xi] == x;
    assert SCORE_CLASS !in x;
    PoolCount(arena, cls, x);
    assert Tagged(x, PoolTag(cls)) in multiset(Pool(arena, cls));
  }

  lemma ScoredIn(rows: seq<Record>, d: map<string, int>, row: Record)
    requires row in rows && NamesHashable(rows)
    ensures Scored(row, d) in WithScores(rows, d)
  {
    var i :| 0 <= i < |rows| && rows[i] == row;
    assert WithScores(rows, d)[i] == Scored(row, d);
  }

  /**
    The whole script on already fetched inputs: the card records and the score
    page's entries per class section.  It stops with the error the first failing
    step raises.
  */
  method Run(data: seq<Record>, sections: map<string, seq<Entry>>) returns (r: Result<seq<Record>, ScriptError>)
    ensures ArenaTable(data).Err? ==> r == Err(TableFailed(ArenaTable(data).error))
    ensures ArenaTable(data).Ok? && (exists c :: c in CLASSES && c !in sections) ==>
              r.Err? && r.error.ScrapeFailed? && r.error.scrapeError.playerClass in CLASSES
              && r.error.scrapeError.playerClass !in sections
    ensures ArenaTable(data).Ok? && (forall c :: c in CLASSES ==> c in sections)
            && !PoolsHashable(ArenaTable(data).value, CLASSES) ==>
              r.Err? && r.error.UnhashableName? && !Hashable(r.error.name)
              && exists x, c :: x in ArenaTable(data).value && c in CLASSES && InPool(x, c) && r.error.name == Cell(x, "name")
    ensures ArenaTable(data).Ok? && (forall c :: c in CLASSES ==> c in sections)
            && PoolsHashable(ArenaTable(data).value, CLASSES) ==>
              r == Ok(FinalTable(ArenaTable(data).value, CLASSES, ScoreDicts(CLASSES, sections)))
  {
    var table := ArenaTable(data);
    if table.Err? {
      return Err(TableFailed(table.error));
    }
    ClassesDistinct();
    r := Process(table.value, CLASSES, sections);
  }

  /** The script after the arena table is built: score dictionaries, pools, scores, combined table. */
  method Process(arena: seq<Record>, classes: seq<string>, sections: map<string, seq<Entry>>)
    returns (r: Result<seq<Record>, ScriptError>)
    requires Distinct(classes)
    ensures (exists c :: c in classes && c !in sections) ==>
              r.Err? && r.error.ScrapeFailed? && r.error.scrapeError.playerClass in classes
              && r.error.scrapeError.playerClass !in sections
    ensures (forall c :: c in classes ==> c in sections) && !PoolsHashable(arena, classes) ==>
              r.Err? && r.error.UnhashableName? && !Hashable(r.error.name)
              && exists x, c :: x in arena && c in classes && InPool(x, c) && r.error.name == Cell(x, "name")
    ensures (forall c :: c in classes ==> c in sections) && PoolsHashable(arena, classes) ==>
              r == Ok(FinalTable(arena, classes, ScoreDicts(classes, sections)))
  {
    var dicts := BuildScoreDicts(classes, sections);
    if dicts.Err? {
      return Err(ScrapeFailed(dicts.error));
    }
    var dfDict := Partition(arena, classes);
    var scored := AttachScores(classes, dfDict, dicts.value);
    if scored.Err? {
      var k :| 0 <= k < |classes| && !NamesHashable(dfDict[classes[k]])
               && scored.error == ApplyScores(dfDict[classes[k]], dicts.value[classes[k]]).error;
      ScoreErrorSource(arena, classes[k], dicts.value[classes[k]]);
      return Err(scored.error);
    }
    ScoredAgree(arena, classes, dicts.value, scored.value);
    var combined := Concat(scored.value, classes);
    r := Ok(KeepScored(combined));
  }

  /** Scoring a pool fails on the name of one of the table cards it draws on. */
  lemma ScoreErrorSource(arena: seq<Record>, cls: string, d: map<string, int>)
    requires !NamesHashable(Pool(arena, cls))
    ensures var e := ApplyScores(Pool(arena, cls), d).error;
            && e.UnhashableName? && !Hashable(e.name)
            && exists x :: x in arena && InPool(x, cls) && e.name == Cell(x, "name")
  {
    var pool := Pool(arena, cls);
    var i :| 0 <= i < |pool| && !Hashable(Cell(pool[i], "name"))
             && ApplyScores(pool, d).error == UnhashableName(Cell(pool[i], "name"));
    var x := PoolRowSource(arena, cls, i);
    assert Cell(pool[i], "name") == Cell(x, "name");
  }

  /** What the scoring loop leaves behind, read in class order, is the scored pools. */
  lemma {:induction false} ScoredAgree(arena: seq<Record>, classes: seq<string>, dicts: map<string, map<string, int>>,
                                       scored: map<string, seq<Record>>)
    requires forall c :: c in classes ==> c in dicts && c in scored
    requires PoolsHashable(arena, classes)
    requires forall c :: c in classes ==> scored[c] == WithScores(Pool(arena, c), dicts[c])
    ensures Concat(scored, classes) == Concat(ScoredPools(arena, classes, dicts), classes)
  {
    var pools := ScoredPools(arena, classes, dicts);
    ConcatAgree(scored, pools, classes);
  }

  lemma {:induction false} ConcatAgree(p: map<string, seq<Record>>, q: map<string, seq<Record>>, order: seq<string>)
    requires forall c :: c in order ==> c in p && c in q && p[c] == q[c]
    ensures Concat(p, order) == Concat(q, order)
  {
    if order != [] {
      ConcatAgree(p, q, order[1..]);
    }
  }
}
