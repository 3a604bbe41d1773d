/**
  The card rows and score dictionaries that save_card_data.py and save_json.py
  build in the same way, after the card database and the score page have been
  fetched: the arena table (no HERO cards, only the arena columns), the
  whitespace stripping of scraped names, the per-class `name -> score`
  dictionaries, and the row filters and column tags both scripts use to split
  the table by class.
*/
module Cards {
  import opened Results

  // ---------------------------------------------------------------------
  // Rows
  // ---------------------------------------------------------------------

  /** A table cell.  `Null` is pandas' NaN: the card has no such field. */
  datatype Value = Null | Text(text: string) | Number(number: int) | Items(items: seq<Value>)

  /** A card record: its fields by column header. */
  type Record = map<string, Value>

  /** The cell of a record in a column; a field the record lacks reads as NaN. */
  function Cell(r: Record, column: string): Value
  {
    if column in r then r[column] else Null
  }

  const CLASSES: seq<string> :=
    ["druid", "hunter", "mage", "paladin", "priest", "rogue", "shaman", "warlock", "warrior", "any"]

  const ARENA_COLS: seq<string> :=
    ["id", "set", "name", "rarity", "playerClass", "type", "cost", "attack", "health",
     "durability", "mechanics", "overload"]

  const ARENA_COLUMN_SET: set<string> := set c | c in ARENA_COLS

  /** The column the scripts add to every pool row for the class whose scores it uses. */
  const SCORE_CLASS := "arenaScoreClass"

  /** The column save_card_data.py adds for the looked-up score. */
  const SCORE := "arenaScore"

  /** No name occurs twice in the list. */
  predicate Distinct(classes: seq<string>)
  {
    forall j, k :: 0 <= j < k < |classes| ==> classes[j] != classes[k]
  }

  lemma ClassesDistinct()
    ensures Distinct(CLASSES)
  {
  }

  lemma AddedColumnsAreNew()
    ensures SCORE_CLASS !in ARENA_COLUMN_SET && SCORE !in ARENA_COLUMN_SET
  {
  }

  // ---------------------------------------------------------------------
  // The arena table
  // ---------------------------------------------------------------------

  /** The columns of the table read from the card records: every field that some record has. */
  function Columns(data: seq<Record>): set<string>
  {
    set r, c | r in data && c in r.Keys :: c
  }

  /** Indexing a table by headers it lacks raises KeyError. */
  datatype TableError = NoColumn(header: string) | NoColumns(headers: seq<string>)

  /** The headers of `cols`, in order, that are not among `present`. */
  function Missing(cols: seq<string>, present: set<string>): (m: seq<string>)
    ensures forall c :: c in m <==> c in cols && c !in present
  {
    if cols == [] then []
    else (if cols[0] in present then [] else [cols[0]]) + Missing(cols[1..], present)
  }

  /** The records whose type is not HERO, in order (a record without a type is kept). */
  function NonHero(data: seq<Record>): (t: seq<Record>)
    ensures |t| <= |data|
    ensures forall r :: r in t <==> r in data && Cell(r, "type") != Text("HERO")
  {
    if data == [] then []
    else (if Cell(data[0], "type") == Text("HERO") then [] else [data[0]]) + NonHero(data[1..])
  }

  /** The mask keeps every non-hero record as often as it occurs, and no hero record. */
  lemma {:induction false} NonHeroCount(data: seq<Record>, x: Record)
    ensures multiset(NonHero(data))[x] == if Cell(x, "type") != Text("HERO") then multiset(data)[x] else 0
  {
    if data != [] {
      NonHeroCount(data[1..], x);
      assert data == [data[0]] + data[1..];
    }
  }

  /** A record cut down to exactly the arena columns. */
  function Project(r: Record): (p: Record)
    ensures p.Keys == ARENA_COLUMN_SET
    ensures forall c :: c in ARENA_COLS ==> p[c] == Cell(r, c)
  {
    map c | c in ARENA_COLS :: Cell(r, c)
  }

  function ProjectAll(rows: seq<Record>): (p: seq<Record>)
  {
    seq(|rows|, i requires 0 <= i < |rows| => Project(rows[i]))
  }

  /** The projected rows are exactly the projections of the rows. */
  lemma ProjectAllMembers(rows: seq<Record>)
    ensures forall row :: row in ProjectAll(rows) <==> exists d :: d in rows && row == Project(d)
  {
    var table := ProjectAll(rows);
    forall row | row in table ensures exists d :: d in rows && row == Project(d) {
      var i :| 0 <= i < |table| && table[i] == row;
      assert rows[i] in rows;
    }
    forall row | exists d :: d in rows && row == Project(d) ensures row in table {
      var d :| d in rows && row == Project(d);
      var i :| 0 <= i < |rows| && rows[i] == d;
      assert table[i] == row;
    }
  }

  /**
    The arena table of both scripts: drop the HERO records, keep the arena
    columns.  Fails as pandas does when the table has no `type` column, or
    lacks one of the arena columns.
  */
  function ArenaTable(data: seq<Record>): (r: Result<seq<Record>, TableError>)
    ensures r.Ok? <==> forall c :: c in ARENA_COLS ==> c in Columns(data)
    ensures r.Ok? ==> |r.value| == |NonHero(data)| <= |data|
    ensures r.Ok? ==> forall i :: 0 <= i < |r.value| ==> r.value[i] == Project(NonHero(data)[i])
    ensures r.Ok? ==> forall row :: row in r.value ==> row.Keys == ARENA_COLUMN_SET && Cell(row, "type") != Text("HERO")
    ensures r.Ok? ==> forall row :: row in r.value <==> exists d :: d in data && Cell(d, "type") != Text("HERO") && row == Project(d)
    ensures "type" !in Columns(data) ==> r == Err(NoColumn("type"))
  {
    if "type" !in Columns(data) then Err(NoColumn("type"))
    else
      var missing := Missing(ARENA_COLS, Columns(data));
      if missing != [] then
        assert missing[0] in missing;
        Err(NoColumns(missing))
      else
        var kept := NonHero(data);
        ProjectAllMembers(kept);
        Ok(ProjectAll(kept))
  }

  // ---------------------------------------------------------------------
  // Scraped names
  // ---------------------------------------------------------------------

  /** The characters Python's `str.strip()` removes: those `str.isspace()` accepts. */
  predicate IsSpace(ch: char)
  {
    || ('\t' <= ch <= '\r') || ('\U{1c}' <= ch <= '\U{1f}') || ch == ' '
    || ch == '\U{85}' || ch == '\U{a0}' || ch == '\U{1680}' || ('\U{2000}' <= ch <= '\U{200a}')
    || ch == '\U{2028}' || ch == '\U{2029}' || ch == '\U{202f}' || ch == '\U{205f}' || ch == '\U{3000}'
  }

  /** `s` without its leading white space. */
  function TrimLeft(s: string): string
  {
    if s != [] && IsSpace(s[0]) then TrimLeft(s[1..]) else s
  }

  /** `s` without its trailing white space. */
  function TrimRight(s: string): string
  {
    if s != [] && IsSpace(s[|s| - 1]) then TrimRight(s[..|s| - 1]) else s
  }

  /** Python's `str.strip()`: the name with white space removed from both ends. */
  function Strip(s: string): string
  {
    TrimRight(TrimLeft(s))
  }

  /** TrimLeft drops a white-space prefix and stops at the first other character. */
  lemma {:induction false} TrimLeftSuffix(s: string)
    ensures var t := TrimLeft(s);
            && |t| <= |s| && t == s[|s| - |t|..]
            && (forall k :: 0 <= k < |s| - |t| ==> IsSpace(s[k]))
            && (t != [] ==> !IsSpace(t[0]))
  {
    if s != [] && IsSpace(s[0]) {
      TrimLeftSuffix(s[1..]);
      var t := TrimLeft(s[1..]);
      assert s[1..][|s| - 1 - |t|..] == s[|s| - |t|..];
      forall k | 0 <= k < |s| - |t| ensures IsSpace(s[k]) {
        if k > 0 { assert s[k] == s[1..][k - 1]; }
      }
    }
  }

  /** TrimRight drops a white-space suffix and stops at the last other character. */
  lemma {:induction false} TrimRightPrefix(s: string)
    ensures var t := TrimRight(s);
            && |t| <= |s| && t == s[..|t|]
            && (forall k :: |t| <= k < |s| ==> IsSpace(s[k]))
            && (t != [] ==> !IsSpace(t[|t| - 1]))
  {
    if s != [] && IsSpace(s[|s| - 1]) {
      var p := s[..|s| - 1];
      TrimRightPrefix(p);
      var t := TrimRight(p);
      assert p[..|t|] == s[..|t|];
      forall k | |t| <= k < |s| ensures IsSpace(s[k]) {
        if k < |s| - 1 { assert s[k] == p[k]; }
      }
    }
  }

  /**
    Stripping keeps one contiguous piece of the text, cuts only white space,
    and leaves none at either end.
  */
  lemma StripSlice(s: string) returns (i: nat, j: nat)
    ensures i <= j <= |s| && Strip(s) == s[i..j]
    ensures forall k :: 0 <= k < i || j <= k < |s| ==> IsSpace(s[k])
    ensures Strip(s) != [] ==> !IsSpace(Strip(s)[0]) && !IsSpace(Strip(s)[|Strip(s)| - 1])
  {
    var l := TrimLeft(s);
    TrimLeftSuffix(s);
    TrimRightPrefix(l);
    var t := TrimRight(l);
    assert t == Strip(s);
    i := |s| - |l|;
    j := i + |t|;
    assert s[i..][..|t|] == s[i..j];
    forall k | j <= k < |s| ensures IsSpace(s[k]) {
      assert s[k] == l[k - i];
    }
    assert t != [] ==> t[0] == l[0];
  }

  /** A name strips to the empty string exactly when it is all white space. */
  lemma StripEmpty(s: string)
    ensures Strip(s) == [] <==> forall k :: 0 <= k < |s| ==> IsSpace(s[k])
  {
    var i, j := StripSlice(s);
    assert Strip(s) != [] ==> Strip(s)[0] == s[i];
  }

  // ---------------------------------------------------------------------
  // Score dictionaries
  // ---------------------------------------------------------------------

  /** One scraped tier-list entry: the name text and its score, already read as an integer. */
  datatype Entry = Entry(nameText: string, score: int)

  /** The dictionary the loop has built after the given entries, in page order. */
  function ScoreDict(entries: seq<Entry>): map<string, int>
    decreases |entries|
  {
    if entries == [] then map[]
    else
      var d := ScoreDict(entries[..|entries| - 1]);
      var e := entries[|entries| - 1];
      if Strip(e.nameText) != "" then d[Strip(e.nameText) := e.score] else d
  }

  /** A name has a score exactly when it is not empty and some entry strips to it. */
  lemma {:induction false} ScoreDictKeys(entries: seq<Entry>, name: string)
    decreases |entries|
    ensures name in ScoreDict(entries) <==>
              name != "" && exists i :: 0 <= i < |entries| && Strip(entries[i].nameText) == name
  {
    if entries != [] {
      var n := |entries| - 1;
      var prefix := entries[..n];
      ScoreDictKeys(prefix, name);
      assert forall i :: 0 <= i < n ==> prefix[i] == entries[i];
    }
  }

  /** A name's score is the one of the last entry that strips to it: later entries overwrite earlier ones. */
  lemma {:induction false} ScoreDictLatest(entries: seq<Entry>, i: nat)
    requires i < |entries| && Strip(entries[i].nameText) != ""
    requires forall j :: i < j < |entries| ==> Strip(entries[j].nameText) != Strip(entries[i].nameText)
    decreases |entries|
    ensures Strip(entries[i].nameText) in ScoreDict(entries)
    ensures ScoreDict(entries)[Strip(entries[i].nameText)] == entries[i].score
  {
    var n := |entries| - 1;
    var key := Strip(entries[i].nameText);
    var prefix := entries[..n];
    var last := Strip(entries[n].nameText);
    assert ScoreDict(entries) == if last != "" then ScoreDict(prefix)[last := entries[n].score] else ScoreDict(prefix);
    if i < n {
      assert last != key;
      assert prefix[i] == entries[i];
      assert forall j :: i < j < n ==> prefix[j] == entries[j];
      ScoreDictLatest(prefix, i);
    }
  }

  /** The inner loops of one class section: `d[name] = score` for every entry whose stripped name is not empty. */
  method BuildScoreDict(entries: seq<Entry>) returns (d: map<string, int>)
    ensures d == ScoreDict(entries)
  {
    d := map[];
    var i := 0;
    while i < |entries|
      invariant 0 <= i <= |entries|
      invariant d == ScoreDict(entries[..i])
    {
      var name := Strip(entries[i].nameText);
      if name != "" {
        d := d[name := entries[i].score];
      }
      assert entries[..i + 1][..i] == entries[..i];
      i := i + 1;
    }
    assert entries[..i] == entries;
  }

  /** Looking up a class's section on the score page finds nothing: indexing the empty result raises IndexError. */
  datatype ScrapeError = NoSection(playerClass: string)

  /** The dictionaries of the given classes, for a page that has each class's section. */
  function ScoreDicts(classes: seq<string>, sections: map<string, seq<Entry>>): map<string, map<string, int>>
    requires forall c :: c in classes ==> c in sections
  {
    map c | c in classes :: ScoreDict(sections[c])
  }

  /**
    The outer loop over the classes (CLASSES in both scripts): one dictionary
    per class, built from that class's section of the score page, visited in
    the list's order.
  */
  method BuildScoreDicts(classes: seq<string>, sections: map<string, seq<Entry>>)
    returns (r: Result<map<string, map<string, int>>, ScrapeError>)
    ensures r.Ok? <==> forall c :: c in classes ==> c in sections
    ensures r.Ok? ==> r.value == ScoreDicts(classes, sections)
    ensures r.Err? ==> exists k :: 0 <= k < |classes| && r.error == NoSection(classes[k])
                                   && classes[k] !in sections
                                   && forall j :: 0 <= j < k ==> classes[j] in sections
  {
    var dicts: map<string, map<string, int>> := map c | c in classes :: map[];
    var i := 0;
    while i < |classes|
      invariant 0 <= i <= |classes|
      invariant dicts.Keys == set c | c in classes
      invariant forall j :: 0 <= j < i ==> classes[j] in sections
      invariant forall c :: c in classes[..i] ==> c in sections && dicts[c] == ScoreDict(sections[c])
    {
      var c := classes[i];
      if c !in sections {
        return Err(NoSection(c));
      }
      var d := BuildScoreDict(sections[c]);
      dicts := dicts[c := d];
      assert classes[..i + 1] == classes[..i] + [c];
      i := i + 1;
    }
    assert classes[..i] == classes;
    r := Ok(dicts);
  }

  /** Why a script stops before writing its tables. */
  datatype ScriptError =
    | TableFailed(tableError: TableError)
    | ScrapeFailed(scrapeError: ScrapeError)
      /** A card's name is a list, which `dict.get` cannot hash (TypeError). */
    | UnhashableName(name: Value)

  // ---------------------------------------------------------------------
  // Splitting the table by class
  // ---------------------------------------------------------------------

  /** Python's `str.upper()` on the ASCII class names. */
  function UpperChar(ch: char): char
  {
    if 'a' <= ch <= 'z' then (ch as int - 32) as char else ch
  }

  function Upper(s: string): (u: string)
  {
    seq(|s|, i requires 0 <= i < |s| => UpperChar(s[i]))
  }

  /** No class name upper-cases to NEUTRAL, so a class's own cards and the neutral cards never overlap. */
  lemma ClassTagsNotNeutral()
    ensures forall c :: c in CLASSES ==> Upper(c) != "NEUTRAL"
  {
    forall c | c in CLASSES ensures Upper(c) != "NEUTRAL" {
      if |c| == 7 {
        assert Upper(c)[0] == UpperChar(c[0]);
        assert c[0] == 'p' || c[0] == 'w';
        assert "NEUTRAL"[0] == 'N';
      }
    }
  }

  /** The rows of a table whose `playerClass` is the given label, in order. */
  function ClassRows(table: seq<Record>, playerClass: string): (t: seq<Record>)
    ensures |t| <= |table|
    ensures forall r :: r in t <==> r in table && Cell(r, "playerClass") == Text(playerClass)
  {
    if table == [] then []
    else (if Cell(table[0], "playerClass") == Text(playerClass) then [table[0]] else [])
         + ClassRows(table[1..], playerClass)
  }

  /** Each row keeps its multiplicity when it has the label, and disappears otherwise. */
  lemma {:induction false} ClassRowsCount(table: seq<Record>, playerClass: string, r: Record)
    ensures multiset(ClassRows(table, playerClass))[r] ==
              if Cell(r, "playerClass") == Text(playerClass) then multiset(table)[r] else 0
  {
    if table != [] {
      ClassRowsCount(table[1..], playerClass, r);
      assert table == [table[0]] + table[1..];
    }
  }

  /** A row with the class column set to `tag`. */
  function Tagged(r: Record, tag: string): Record
  {
    r[SCORE_CLASS := Text(tag)]
  }

  /** `class_df['arenaScoreClass'] = tag`: the same rows, each with the class column set. */
  function Tag(rows: seq<Record>, tag: string): (t: seq<Record>)
  {
    seq(|rows|, i requires 0 <= i < |rows| => Tagged(rows[i], tag))
  }

  /** A row without the class column. */
  function Untagged(r: Record): Record
  {
    r - {SCORE_CLASS}
  }

  function Untag(rows: seq<Record>): seq<Record>
  {
    seq(|rows|, i requires 0 <= i < |rows| => Untagged(rows[i]))
  }

  predicate Untagged?(rows: seq<Record>)
  {
    forall i :: 0 <= i < |rows| ==> SCORE_CLASS !in rows[i]
  }

  /**
    Tagging adds one column and nothing else: every tagged row carries the
    tag, and removing the column gives the rows back in their order.
  */
  lemma TagUntag(rows: seq<Record>, tag: string)
    requires Untagged?(rows)
    ensures |Tag(rows, tag)| == |rows|
    ensures forall i :: 0 <= i < |rows| ==> Cell(Tag(rows, tag)[i], SCORE_CLASS) == Text(tag)
    ensures Untag(Tag(rows, tag)) == rows
  {
    var t := Untag(Tag(rows, tag));
    forall i | 0 <= i < |rows| ensures t[i] == rows[i] {
      assert t[i].Keys == rows[i].Keys;
    }
  }

  /** The arena table never has the class column, so its rows can be tagged and untagged. */
  lemma ArenaTableUntagged(data: seq<Record>)
    requires ArenaTable(data).Ok?
    ensures Untagged?(ArenaTable(data).value)
  {
    AddedColumnsAreNew();
    var t := ArenaTable(data).value;
    forall i | 0 <= i < |t| ensures SCORE_CLASS !in t[i] {
      assert t[i] in t;
    }
  }

  lemma ClassRowsUntagged(table: seq<Record>, playerClass: string)
    requires Untagged?(table)
    ensures Untagged?(ClassRows(table, playerClass))
  {
    var t := ClassRows(table, playerClass);
    forall i | 0 <= i < |t| ensures SCORE_CLASS !in t[i] {
      assert t[i] in t;
      var k :| 0 <= k < |table| && table[k] == t[i];
    }
  }

  lemma TaggedInjective(r: Record, x: Record, tag: string)
    requires SCORE_CLASS !in r && SCORE_CLASS !in x
    ensures Tagged(r, tag) == Tagged(x, tag) ==> r == x
  {
    if Tagged(r, tag) == Tagged(x, tag) {
      assert r == Untagged(Tagged(r, tag));
      assert x == Untagged(Tagged(x, tag));
    }
  }

  /** Tagging keeps every row's multiplicity. */
  lemma {:induction false} TagCount(rows: seq<Record>, tag: string, x: Record)
    requires Untagged?(rows) && SCORE_CLASS !in x
    ensures multiset(Tag(rows, tag))[Tagged(x, tag)] == multiset(rows)[x]
  {
    if rows != [] {
      var rest := rows[1..];
      assert Untagged?(rest) by {
        forall i | 0 <= i < |rest| ensures SCORE_CLASS !in rest[i] { assert rest[i] == rows[i + 1]; }
      }
      TagCount(rest, tag, x);
      TaggedInjective(rows[0], x, tag);
      assert Tag(rows, tag) == [Tagged(rows[0], tag)] + Tag(rest, tag);
      assert rows == [rows[0]] + rest;
    }
  }
}
