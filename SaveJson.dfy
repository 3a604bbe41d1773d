/**
  save_json.py, the older script, after its two fetches: the same arena table
  and score dictionaries as save_card_data.py, and one pool per class in which
  'any' is not treated specially: every pool, 'any' included, is the rows of
  the upper-cased class followed by the neutral rows, tagged with the
  upper-cased class.  It attaches no scores and does not combine the pools.
*/
module SaveJson {
  import opened Results
  import opened Cards
  import SaveCardData

  /** The pool the loop stores for one class. */
  function Pool(arena: seq<Record>, cls: string): seq<Record>
  {
    Tag(ClassRows(arena, Upper(cls)) + ClassRows(arena, "NEUTRAL"), Upper(cls))
  }

  /** The pools of the given classes, by class. */
  function Pools(arena: seq<Record>, classes: seq<string>): map<string, seq<Record>>
  {
    map c | c in classes :: Pool(arena, c)
  }

  /** The loop over the classes (CLASSES in the script) that fills `df_dict`, one pool per class. */
  method Partition(arena: seq<Record>, classes: seq<string>) returns (dfDict: map<string, seq<Record>>)
    ensures dfDict == Pools(arena, classes)
  {
    dfDict := map c | c in classes :: [];
    var neutral := ClassRows(arena, "NEUTRAL");
    var i := 0;
    while i < |classes|
      invariant 0 <= i <= |classes|
      invariant dfDict.Keys == set c | c in classes
      invariant forall c :: c in classes[..i] ==> dfDict[c] == Pool(arena, c)
    {
      var c := classes[i];
      var classDf := ClassRows(arena, Upper(c));
      classDf := classDf + neutral;
      classDf := Tag(classDf, Upper(c));
      dfDict := dfDict[c := classDf];
      assert classes[..i + 1] == classes[..i] + [c];
      i := i + 1;
    }
    assert classes[..i] == classes;
  }

  /**
    A pool is the class's rows followed by the neutral rows, in table order,
    each tagged with the upper-cased class; so its length is the two counts added.
  */
  lemma PoolShape(arena: seq<Record>, cls: string)
    requires Untagged?(arena)
    ensures |Pool(arena, cls)| == |ClassRows(arena, Upper(cls))| + |ClassRows(arena, "NEUTRAL")|
    ensures Untag(Pool(arena, cls)) == ClassRows(arena, Upper(cls)) + ClassRows(arena, "NEUTRAL")
    ensures forall i :: 0 <= i < |Pool(arena, cls)| ==> Cell(Pool(arena, cls)[i], SCORE_CLASS) == Text(Upper(cls))
  {
    ClassRowsUntagged(arena, "NEUTRAL");
    ClassRowsUntagged(arena, Upper(cls));
    var rows := ClassRows(arena, Upper(cls)) + ClassRows(arena, "NEUTRAL");
    assert Untagged?(rows);
    TagUntag(rows, Upper(cls));
  }

  /** Every card of the class or neutral is in the pool exactly as often as in the table, and no other card is. */
  lemma PoolCount(arena: seq<Record>, cls: string, x: Record)
    requires Upper(cls) != "NEUTRAL"
    requires Untagged?(arena) && SCORE_CLASS !in x
    ensures multiset(Pool(arena, cls))[Tagged(x, Upper(cls))] ==
              if Cell(x, "playerClass") == Text("NEUTRAL") || Cell(x, "playerClass") == Text(Upper(cls))
              then multiset(arena)[x] else 0
  {
    var rows := ClassRows(arena, Upper(cls)) + ClassRows(arena, "NEUTRAL");
    ClassRowsUntagged(arena, "NEUTRAL");
    ClassRowsUntagged(arena, Upper(cls));
    assert Untagged?(rows);
    TagCount(rows, Upper(cls), x);
    ClassRowsCount(arena, "NEUTRAL", x);
    ClassRowsCount(arena, Upper(cls), x);
    assert multiset(rows) == multiset(ClassRows(arena, Upper(cls))) + multiset(ClassRows(arena, "NEUTRAL"));
  }

  lemma UpperAny()
    ensures Upper("any") == "ANY"
  {
  }

  /** For every class but 'any' both scripts build the same pool. */
  lemma SameClassPools(arena: seq<Record>, cls: string)
    requires cls != "any"
    ensures Pool(arena, cls) == SaveCardData.Pool(arena, cls)
  {
  }

  /**
    The 'any' pool differs: here it is the rows of class ANY followed by the
    neutral rows, tagged ANY; the later script keeps only the neutral rows and
    tags them NEUTRAL.
  */
  lemma AnyPools(arena: seq<Record>)
    requires Untagged?(arena)
    ensures Untag(Pool(arena, "any")) == ClassRows(arena, "ANY") + Untag(SaveCardData.Pool(arena, "any"))
    ensures forall i :: 0 <= i < |Pool(arena, "any")| ==> Cell(Pool(arena, "any")[i], SCORE_CLASS) == Text("ANY")
    ensures forall i :: 0 <= i < |SaveCardData.Pool(arena, "any")| ==>
              Cell(SaveCardData.Pool(arena, "any")[i], SCORE_CLASS) == Text("NEUTRAL")
  {
    UpperAny();
    PoolShape(arena, "any");
    SaveCardData.PoolShape(arena, "any");
  }

  /** What the script holds at its end. */
  datatype Tables = Tables(arena: seq<Record>, scoreDicts: map<string, map<string, int>>,
                           pools: map<string, seq<Record>>)

  /**
    The whole script on already fetched inputs: the card records and the score
    page's entries per class section.  It stops with the error the first failing
    step raises.
  */
  method Run(data: seq<Record>, sections: map<string, seq<Entry>>) returns (r: Result<Tables, ScriptError>)
    ensures ArenaTable(data).Err? ==> r == Err(TableFailed(ArenaTable(data).error))
    ensures ArenaTable(data).Ok? && (exists c :: c in CLASSES && c !in sections) ==>
              r.Err? && r.error.ScrapeFailed? && r.error.scrapeError.playerClass in CLASSES
              && r.error.scrapeError.playerClass !in sections
    ensures ArenaTable(data).Ok? && (forall c :: c in CLASSES ==> c in sections) ==>
              r == Ok(Tables(ArenaTable(data).value, ScoreDicts(CLASSES, sections),
                             Pools(ArenaTable(data).value, CLASSES)))
  {
    var table := ArenaTable(data);
    if table.Err? {
      return Err(TableFailed(table.error));
    }
    var arena := table.value;
    var dicts := BuildScoreDicts(CLASSES, sections);
    if dicts.Err? {
      return Err(ScrapeFailed(dicts.error));
    }
    var dfDict := Partition(arena, CLASSES);
    r := Ok(Tables(arena, dicts.value, dfDict));
  }
}
