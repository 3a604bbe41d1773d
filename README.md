# Hearthstone arena rebalancing: a Dafny model of its data preparation

The repository gathers Hearthstone card data for arena drafting. It has three core pieces, and this project models each one:

- **`hs_arena_kit.py`** defines `ArenaDraftCalculator`. Its constructor accepts the cards in one of three forms:
  - three parallel lists;
  - a table plus the names of its three columns;
  - a list of per-card tuples.

  It stores each card's weight, name and score, and the running totals of the weights (`cum_weights`).
- **`save_card_data.py`** takes the collectible card records and drops the hero cards. It keeps twelve columns and builds one score dictionary per class from the scraped tier list. It then splits the cards into one pool per class: the class's own cards plus the neutral cards. The pool for `any` holds only the neutral cards, labelled `NEUTRAL`. Finally it attaches each card's score for that class, concatenates the pools in class order, and keeps only the rows that have a score. A card whose name is a list cannot be looked up, so the script stops there with a TypeError.
- **`save_json.py`** is the older script. It does the same up to the pools, except that it does not treat `any` specially. It attaches no scores and combines nothing.

Dafny modules:

- `Results`: `Option` and `Result`.
- `ArenaKit`: `hs_arena_kit.py`. The calculator is a class with the four fields the constructor assigns. The running total is a pure function (`CumSum`), checked against a reference prefix sum (`Sum`).
- `Cards`: the steps both scripts share, written against a parameter holding the class list:
  - the arena table (HERO filter and column projection);
  - Python's `str.strip`;
  - the score-dictionary loops;
  - upper-casing, the per-class row filter, and the class label column.
- `SaveCardData` and `SaveJson`: each script's own pooling loop. `SaveCardData` also has the scoring loop and the final concatenation and filter. Each has a `Run` that chains the steps on already fetched inputs.

A row is a map from column name to `Value`. A column a record lacks reads as `Null`, which is pandas' NaN.

Loops in the source become `method`s with `while` loops. Each method is proved equal to a specification function (`ScoreDict`, `ScoreDicts`, `Pools`, `WithScores`), and the lemmas are stated about those functions.

## Model

| member | source | states |
|---|---|---|
| ArenaKit.CumSumAt | hs_arena_kit.py:42 | Entry i of the running total `CumSum` is the sum of the first i+1 weights. |
| ArenaKit.CumSumLast | hs_arena_kit.py:42 | The last running total is the sum of all weights. |
| ArenaKit.CumSumNonDecreasing | hs_arena_kit.py:42 | With non-negative weights (probabilities) the running totals never decrease. |
| ArenaKit.CumSumIncreasing | hs_arena_kit.py:42 | With positive weights the running totals strictly increase. |
| ArenaKit.ZipUnzip | hs_arena_kit.py:38-40 | Splitting tuples into the three lists gives three lists of the tuples' length, and zipping them back gives the tuples again. |
| ArenaKit.UnzipZip | hs_arena_kit.py:38-40 | Three equal-length lists zipped into tuples and split again are the original lists. |
| ArenaKit.ColumnAt | hs_arena_kit.py:33-35 | `card_df[df_cols[k]]` succeeds exactly when position k exists and names a column, and then it is that column. |
| ArenaKit.FrameLists | hs_arena_kit.py:33-35 | Table mode succeeds exactly when the column list is given and its first three names are columns of the right kinds. The lists are then those columns. A missing list, a missing position 0 and a missing first column give the matching errors. |
| ArenaKit.FrameListsAligned | hs_arena_kit.py:33-35 | From a table whose columns all have one length, the three lists have that same length. |
| ArenaKit.ChooseMode | hs_arena_kit.py:27-37 | Tuples win whenever they are given. Otherwise the table wins whenever it is given. Otherwise the lists are used. Each direction is proved. |
| ArenaKit.ArenaDraftCalculator.FromLists | hs_arena_kit.py:27-42 | List mode stores the three lists unchanged and their running total. |
| ArenaKit.ArenaDraftCalculator.FromFrame | hs_arena_kit.py:32-42 | Table mode stores the three named columns and the running total of the weights. |
| ArenaKit.ArenaDraftCalculator.FromTuples | hs_arena_kit.py:37-42 | Tuple mode stores the first, second and third components of every tuple, in order, and the running total of the weights. |
| ArenaKit.NewCalculator | hs_arena_kit.py:11-42 | The full constructor call. It picks the mode as `ChooseMode` does and yields a fresh calculator holding that mode's lists and their running total. In table mode it fails exactly as `FrameLists` does. |
| ArenaKit.TupleCalculatorRoundTrip | hs_arena_kit.py:38-42 | A calculator built from tuples gives back those tuples when its three lists are zipped. All four of its lists have the tuples' length. |
| ArenaKit.CalculatorIndex | hs_arena_kit.py:42 | In every calculator the running totals line up with the weights ('Valid' holds). Each is a prefix sum, the last is the total, and they never decrease for non-negative weights. |
| Cards.ClassesDistinct | save_card_data.py:35-36 | The class list names each class once, so each class's dictionary and pool is written exactly once. |
| Cards.AddedColumnsAreNew | save_card_data.py:84 | The two columns the scripts add (`arenaScoreClass`, `arenaScore`) are not among the twelve kept columns. |
| Cards.Missing | save_card_data.py:54 | The columns reported missing are exactly the requested columns that are absent. |
| Cards.NonHero | save_card_data.py:53 | The rows kept are exactly the rows whose `type` is not HERO, including rows without a type. |
| Cards.NonHeroCount | save_card_data.py:53 | The HERO mask keeps every non-hero record as often as it occurs and drops every hero record. |
| Cards.Project | save_card_data.py:54 | A projected row has exactly the twelve columns, each holding the record's value or NaN. |
| Cards.ArenaTable | save_card_data.py:53-54 | It succeeds exactly when every one of the twelve columns occurs in some record. Its rows are then the projections of the non-hero records, one per record and in record order (row i projects the i-th record kept by `NonHero`). Each has the twelve columns. Without a `type` column it fails on `type`. |
| Cards.StripSlice | save_card_data.py:71 | `Strip`, the model of `str.strip`, returns a contiguous slice of the text. Everything cut off is whitespace, and a non-empty result neither starts nor ends with whitespace. |
| Cards.StripEmpty | save_card_data.py:71-72 | A name is skipped exactly when its text is all whitespace. |
| Cards.ScoreDictKeys | save_card_data.py:68-74 | A name is a key of a class's dictionary (`ScoreDict` of its section's entries) exactly when it is non-empty and some entry's stripped text equals it. |
| Cards.ScoreDictLatest | save_card_data.py:74 | A name's score is that of the last entry with that name: later entries overwrite earlier ones. |
| Cards.BuildScoreDict | save_card_data.py:68-74 | The loop over one section's entries builds exactly `ScoreDict` of those entries. |
| Cards.BuildScoreDicts | save_card_data.py:62-74 | The outer loop succeeds exactly when every class has a section. It then holds one dictionary per class, built from that class's section. Otherwise it fails on the first class without a section. |
| Cards.ClassTagsNotNeutral | save_card_data.py:80-84 | No class name upper-cases (`Upper`, `str.upper`) to NEUTRAL, so a class's own rows and the neutral rows never overlap. |
| Cards.ClassRows | save_card_data.py:79 | The filtered rows are exactly the table rows of that player class. |
| Cards.ClassRowsCount | save_card_data.py:79 | The filter keeps every row of the class as often as the table has it, and no other row. |
| Cards.TagUntag | save_card_data.py:84 | Setting the label column keeps the rows and their order. Every row then carries the label, and removing it gives back the original rows. |
| Cards.ArenaTableUntagged | save_card_data.py:53-54 | No row of the arena table has a label column yet. |
| Cards.TaggedInjective | save_card_data.py:84 | Two unlabelled rows with the same label added are the same row. |
| Cards.TagCount | save_card_data.py:84 | Labelling keeps each row's multiplicity. |
| SaveCardData.Partition | save_card_data.py:78-88 | The pooling loop stores for every class exactly `Pool`. The pool is tagged with the upper-cased class (or NEUTRAL for `any`). It holds the class's own rows followed by the neutral rows (only the neutral rows for `any`). |
| SaveCardData.PoolShape | save_card_data.py:79-88 | A pool (`Pool`, the value line 88 stores) without its label is the class's rows followed by the neutral rows, in table order. For `any` it is the neutral rows only. Every row carries the pool's label. |
| SaveCardData.PoolCount | save_card_data.py:79-88 | Every table card of the class, or neutral, is in the pool as often as in the table. No other card is there. |
| SaveCardData.GetScore | save_card_data.py:92-93 | A list-valued name, which `dict.get` cannot hash, raises (`UnhashableName`), and no other name does. For any other name the score is present exactly when the name is a key of the dictionary, and then it is that key's score. |
| SaveCardData.WithScores | save_card_data.py:98 | Attaching scores keeps the rows and their order. Every row's `arenaScore` is `get_score` of its name, and every other column is unchanged. |
| SaveCardData.ApplyScores | save_card_data.py:98 | Scoring a pool succeeds exactly when every name in it can be hashed, and then gives `WithScores`. Otherwise it fails on the first unhashable name in row order. |
| SaveCardData.AttachScores | save_card_data.py:95-98 | The scoring loop succeeds exactly when every class's pool has only hashable names. It then replaces every class's pool by the pool scored with that class's dictionary and changes nothing else. Otherwise it fails with the error of the first class, in list order, whose pool has an unhashable name. |
| SaveCardData.PoolRowSource | save_card_data.py:79-87 | Every pool row is a table card of the pool's class or neutral, with the pool's label added. |
| SaveCardData.PoolNamesHashable | save_card_data.py:79-98 | A pool's names can all be hashed exactly when those of the table cards it draws on can. |
| SaveCardData.ScoreErrorSource | save_card_data.py:95-98 | When scoring a pool fails, it fails on the unhashable name of a table card the pool draws on. |
| SaveCardData.ConcatContents | save_card_data.py:102 | The concatenation's length is the sum of the pool sizes. A row is in it exactly when it is in some class's pool. |
| SaveCardData.KeepScored | save_card_data.py:103 | The filter keeps exactly the rows whose score is present, never adding rows. |
| SaveCardData.KeepScoredCount | save_card_data.py:103 | The `notnull` mask keeps every scored row as often as it occurs and drops every unscored row. |
| SaveCardData.FinalTableBound | save_card_data.py:102-103 | The written table (`FinalTable`) is no longer than all pools together. |
| SaveCardData.FinalTableRows | save_card_data.py:95-103 | Every written row comes from some class's pool, carries that pool's label, and has the score its name has in that class's dictionary. |
| SaveCardData.FinalTableKeeps | save_card_data.py:79-103 | Conversely, every table card of a class (or neutral) whose name that class's dictionary knows is written, labelled and scored for that class. |
| SaveCardData.Run | save_card_data.py:53-103 | The whole script on fetched inputs. It gives the table's error if the table fails. Otherwise it gives a scrape error naming a class without a section, if any class lacks one. Otherwise, if some pool holds a list-valued name, it gives a TypeError naming such a name of a table card in that pool. Otherwise it gives exactly `FinalTable` of the arena table and the class dictionaries. |
| SaveCardData.Process | save_card_data.py:62-103 | The same three outcomes after the arena table, for any list of distinct classes. |
| SaveJson.Partition | save_json.py:76-82 | The pooling loop stores for every class exactly `Pool`: the class's rows followed by the neutral rows, tagged with the upper-cased class, `any` included. |
| SaveJson.PoolShape | save_json.py:77-82 | A pool (`Pool`, the value line 82 stores) without its label is the class's rows followed by the neutral rows, in table order. Every row carries the upper-cased class. |
| SaveJson.PoolCount | save_json.py:77-82 | Every table card of the class, or neutral, is in the pool as often as in the table. No other card is there. |
| SaveJson.SameClassPools | save_json.py:78-82 | For every class but `any` the older script builds the same pool as save_card_data.py. |
| SaveJson.AnyPools | save_json.py:78-82 | For `any` the older pool is the ANY-class rows followed by the neutral pool of save_card_data.py, labelled ANY instead of NEUTRAL. |
| SaveJson.Run | save_json.py:50-82 | The whole script on fetched inputs, with the same table and scrape error cases as `SaveCardData.Run`; it looks no names up, so it has no TypeError case. On success it holds the arena table, the class dictionaries and exactly `Pools` for every class. |

## Left out

- Network, disk and parsing. The two downloads (card JSON, tier-list page), `read_json`, the HTML parse and the XPath navigation are outside the model. The scripts' inputs are given directly: a sequence of card records, and for each class section the sequence of (name text, score) entries in page order.
- `int(...)` of the score text. Entries carry the score as an integer already. A malformed score, which would make the script raise, is not modelled, and neither is a missing `dt` or `dd` element or a `dt` without text.
- Writes. The JSON, CSV and arena CSV outputs are not modelled: `save_json.py` writes the arena table at line 52, and `save_card_data.py` writes the final table at line 104. The models return the tables instead.
- The warnings filter (save_card_data.py:39-40) has no effect on the data and is left out.
- data_analysis.py is not part of this model.
- Floating point. Weights and scores of the calculator are `real`, so `np.cumsum` rounding is not modelled. Card scores are integers. pandas turning an integer score column with NaNs into floats is not modelled.
- The rest of `ArenaDraftCalculator` (the draft sampler) is not part of this model.
- ArenaKit.ArenaDraftCalculator.FromLists: the `None` defaults of list mode are not modelled. The lists are plain sequences, so a call that leaves them out (storing `None`) is not covered.
- ArenaKit.FrameLists: columns are typed as numbers or labels, so a weight or score column holding labels, or a name column holding numbers, is an error (`WrongColumnKind`). For the weights column Python also fails, because `np.cumsum` at line 42 raises on text, but with a different error. For the names and scores columns Python would store the column as it is.
- ArenaKit.ArenaDraftCalculator.FromTuples: tuples are exactly (weight, name, score). Longer tuples, whose extra components Python ignores, and shorter ones, which raise IndexError, are not modelled.
- Cards.Upper: upper-casing is ASCII-only. It is only applied to the fixed class names, which are ASCII.
- Row index. pandas keeps each row's original index through the filters and the concatenation, and the index is dropped in the output (`index=False`). The model has no index column.
- Dictionary order. Line 102 iterates `df_dict`. The model assumes insertion order, which is the order of CLASSES, and concatenates in that order. Python dictionaries keep insertion order only from Python 3.7 (CPython 3.6); on older versions the pools may be concatenated in another order.
