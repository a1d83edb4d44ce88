# Co-occurrence indices and zip extraction, modelled in Dafny

This project models two pipeline operators of a recommender-systems data-preparation
repository and proves properties of them.

- **`ItemCooccurrenceIndex.execute`** groups a ratings table by user, in ascending user
  order. For every group of two or more rows it walks the full self-cartesian product of
  the group's item ids. Each pair of distinct items is sorted, and the group's user is
  appended to that pair's list in a dictionary.
- **`UserCooccurrenceIndex.execute`** groups the table by item. It walks the
  self-product of the group's user ids. For each sorted pair of distinct users it selects
  both users' rows *within the current item group*, inner-joins them on the item column
  and extends the pair's list with the joined item ids.
- Both operators first check whether their destination already exists (the skip gate),
  then fetch the table from their source. They persist the finished dictionary once,
  after the loop, and return it. `@cache` makes a second call on the same object return
  the first call's result.
- **`ZipExtractor.execute`** creates the destination directory. It then walks the
  archive's entries in order. It skips names ending in `/`, renames each entry to its
  base name, keeps only `member` when one is given, and extracts into the flat directory.

Because the product is over ordered positions, both `(a, b)` and `(b, a)` reach the same
sorted key. So every unordered pair is visited twice per group, and, when every
(user, item) row is unique, every value is appended twice. With repeated rows the
multiplicities grow: `CooccurrenceProperties.ItemIndexCount` and
`CooccurrenceProperties.UserIndexCount` give the general count. For the rows (user, item) = (1,10), (1,20), (2,10), (2,20), (3,30):

- the item index is `{(10,20): [1,1,2,2]}`;
- the user index is `{(1,2): [10,10,20,20]}`.

The model keeps this behaviour (`CooccurrenceExamples.ItemIndexExample`,
`CooccurrenceExamples.UserIndexExample`).

Layout:

- `ratings.dfy` holds two modules:
  - `Ratings`: the table as a sequence of `(user, item)` rows, column projections, group
    selection, and `groupby`'s sorted distinct keys;
  - `Combinations`: the row-major cartesian product and its pair counts.
- `cooccurrence_spec.dfy` (`CooccurrenceSpec`) defines the index twice:
  - as folds that follow the loops (`Visits`, `GroupStep`, `Fold`, `BuildIndex`);
  - declaratively, group by group (`Copies`, `Spread`).

  `FoldGet` and `FoldKeys` prove that the two agree.
- `cooccurrence_properties.dfy` (`CooccurrenceProperties`) states the properties at the
  level of table rows.
- `cooccurrence_examples.dfy` (`CooccurrenceExamples`) holds the worked example above,
  over symbolic ids and then for the numbers shown.
- `artifact_store.dfy` (`ArtifactStore`, `Wrappers`) is the key-value store the
  operators read from and write to.
- `cooccurrence.dfy` (`CooccurrenceOperators`) holds the two operator classes with their
  nested loops. The loops are proved equal to `BuildIndex`.
- `compress.dfy` (`Compress`) holds the zip extractor: the entry loop, the filesystem it
  writes to, and the properties of the loop.

Three behaviours of the code that the model keeps as they are:

- The user variant joins the two users' rows of the *current item group* only, not their
  ratings in the whole table.
- When every (user, item) row is unique, the item variant appends each user twice per
  pair of items it rated (`CooccurrenceProperties.ItemIndexCount` gives the count with
  repeated rows).
- A skipped run returns nothing (`None`), not the earlier result.

## Model

| member | source | states |
|---|---|---|
| `Ratings.GroupKeys` | recsys/operator/data/cooccurrence.py:177 | the keys `groupby` visits are strictly increasing and are exactly the values of the column |
| `Ratings.GroupKeysUnique` | recsys/operator/data/cooccurrence.py:177 | any strictly increasing list of exactly the column's values is the list of keys `groupby` visits |
| `Ratings.RowsOfUser` | recsys/operator/data/cooccurrence.py:117-122 | the rows of one user, in table order: `ratings[ratings["userId"] == u]` inside an item group, and the group of user u that `groupby` yields at line 177; every row kept has that user and comes from the table |
| `Ratings.RowsOfItem` | recsys/operator/data/cooccurrence.py:97-99 | the group of item g that `groupby` yields, rows in table order; every row kept has that item and comes from the table |
| `Ratings.UserIds` | recsys/operator/data/cooccurrence.py:99 | `ratings[uservar].values`: the user column, one entry per row in row order |
| `Ratings.ItemIds` | recsys/operator/data/cooccurrence.py:179 | `ratings[itemvar].values`: the item column, one entry per row in row order |
| `Ratings.ItemsOfUserCount` | recsys/operator/data/cooccurrence.py:177-179 | in user u's group, item a occurs once per row (u, a) of the table |
| `Ratings.UsersOfItemCount` | recsys/operator/data/cooccurrence.py:97-99 | in item g's group, user x occurs once per row (x, g) of the table |
| `Ratings.RowsOfUserLength` | recsys/operator/data/cooccurrence.py:117-122 | selecting one user's rows of a group keeps as many rows as that user has in the group |
| `Combinations.ProductCount` | recsys/operator/data/cooccurrence.py:102-109 | the transposed cartesian product holds pair (a, b) count(a in xs) × count(b in ys) times, whatever its order |
| `CooccurrenceSpec.Canon` | recsys/operator/data/cooccurrence.py:113 | `tuple(sorted(pair))` puts the smaller id first and keeps the same two ids |
| `Combinations.Product` | recsys/operator/data/cooccurrence.py:102-109 | `cartesian_product` followed by the transpose and `zip`: every pair combines an element of the first column with one of the second |
| `CooccurrenceSpec.Append` | recsys/operator/data/cooccurrence.py:126-131 | get-or-create then extend: only the one key changes, and its list grows by exactly the chunk |
| `CooccurrenceSpec.JoinWithinGroup` | recsys/operator/data/cooccurrence.py:117-125 | inside one item group the inner merge on the item column yields that item once per pair of the two users' rows |
| `CooccurrenceSpec.JoinItems` | recsys/operator/data/cooccurrence.py:123-125 | the `movieId` column of the inner merge of two row sets on `movieId`: every joined item occurs in both sides |
| `CooccurrenceSpec.ChunkIsRepeat` | recsys/operator/data/cooccurrence.py:117-131 | one visit appends the group key: once in the item variant, count(u1) × count(u2) times in the user variant |
| `CooccurrenceSpec.Chunk` | recsys/operator/data/cooccurrence.py:123-131 | what one visit of the sorted pair appends: `[user]` in the item variant, the merged `movieId` column of the two users' rows in the user variant |
| `CooccurrenceSpec.VisitsGet` | recsys/operator/data/cooccurrence.py:111-131 | the pair loop appends the group key to key k once per weight, for each product pair that sorts to k |
| `CooccurrenceSpec.Visit` | recsys/operator/data/cooccurrence.py:113-131 | one pass of the pair loop: no key is removed, and a key it creates has its smaller id strictly first |
| `CooccurrenceSpec.Visits` | recsys/operator/data/cooccurrence.py:111-131 | the pair loop over the product, in order: no key is removed, and every key it creates has its smaller id strictly first |
| `CooccurrenceSpec.VisitsKeys` | recsys/operator/data/cooccurrence.py:111-131 | the pair loop creates exactly the keys some visited pair of distinct ids sorts to |
| `CooccurrenceSpec.ShortColumn` | recsys/operator/data/cooccurrence.py:180 | a group of fewer than two rows cannot hold two distinct ids, so skipping it loses nothing |
| `CooccurrenceSpec.GroupStepGet` | recsys/operator/data/cooccurrence.py:177-198 | one group's step appends its key exactly `Copies` times to every pair's list |
| `CooccurrenceSpec.GroupStep` | recsys/operator/data/cooccurrence.py:97-131 | one group of the `groupby` loop, with its `len > 1` guard: no key is removed, and every key it creates is canonical |
| `CooccurrenceSpec.Fold` | recsys/operator/data/cooccurrence.py:97-131 | the `groupby` loop over the group keys in order: no key is removed, and every key it creates is canonical |
| `CooccurrenceSpec.BuildIndex` | recsys/operator/data/cooccurrence.py:89-131 | the whole build from an empty dictionary over the sorted group keys: every key (a, b) has a < b |
| `CooccurrenceSpec.GroupStepKeys` | recsys/operator/data/cooccurrence.py:177-198 | one group's step creates exactly the keys with a positive `Copies` for that group |
| `CooccurrenceSpec.FoldGet` | recsys/operator/data/cooccurrence.py:177-198 | the group loop builds each list as the groups' keys in group order, each repeated `Copies` times |
| `CooccurrenceSpec.FoldKeys` | recsys/operator/data/cooccurrence.py:177-198 | the group loop creates exactly the keys whose reference list `Spread` is non-empty |
| `CooccurrenceProperties.KeysCanonical` | recsys/operator/data/cooccurrence.py:113-115 | every key (a, b) of either index has a < b: no self-pair and no reversed duplicate |
| `CooccurrenceProperties.IndexKeys` | recsys/operator/data/cooccurrence.py:97-131 | a key is present iff its ids are distinct, sorted and share a group |
| `CooccurrenceProperties.ItemIndexKeys` | recsys/operator/data/cooccurrence.py:177-198 | item index: (a, b) is a key iff a < b and some user rated both a and b |
| `CooccurrenceProperties.UserIndexKeys` | recsys/operator/data/cooccurrence.py:97-131 | user index: (x, y) is a key iff x < y and some item was rated by both x and y |
| `CooccurrenceProperties.IndexCount` | recsys/operator/data/cooccurrence.py:97-131 | the number of times a group key occurs in a pair's list is that group's `Copies` |
| `CooccurrenceProperties.ItemIndexCount` | recsys/operator/data/cooccurrence.py:185-198 | user u occurs in (a, b)'s list 2 × m(u,a) × m(u,b) times, m counting duplicate rows |
| `CooccurrenceProperties.UserIndexCount` | recsys/operator/data/cooccurrence.py:105-131 | item g occurs in (x, y)'s list 2 × (m(x,g) × m(y,g))² times: two ordered visits, each joining every row pair |
| `CooccurrenceProperties.ItemIndexUniqueRatings` | recsys/operator/data/cooccurrence.py:185-198 | with no duplicate ratings, a user who rated both items appears exactly twice in their list |
| `CooccurrenceProperties.UserIndexUniqueRatings` | recsys/operator/data/cooccurrence.py:105-131 | with no duplicate ratings, an item rated by both users appears exactly twice in their list |
| `CooccurrenceProperties.ItemIndexMembers` | recsys/operator/data/cooccurrence.py:195-198 | every user in (a, b)'s list rated both a and b |
| `CooccurrenceProperties.UserIndexMembers` | recsys/operator/data/cooccurrence.py:117-131 | every item in (x, y)'s list was rated by both x and y |
| `CooccurrenceProperties.IndexSorted` | recsys/operator/data/cooccurrence.py:97-131 | with groups in ascending key order, every list is non-decreasing |
| `CooccurrenceProperties.AppendOnly` | recsys/operator/data/cooccurrence.py:126-131 | lists are only extended: a list after some groups is a prefix of the final list, and a key once created stays |
| `CooccurrenceProperties.SingleIdGroup` | recsys/operator/data/cooccurrence.py:191-193 | a group whose rows all carry the same id contributes nothing, since every product pair is a self-pair |
| `CooccurrenceExamples.ItemIndexSample` | recsys/operator/data/cooccurrence.py:177-198 | for rows (u1,i1), (u1,i2), (u2,i1), (u2,i2), (u3,i3) with u1 < u2 < u3 and i1 < i2 < i3, the item index is {(i1,i2): [u1,u1,u2,u2]} |
| `CooccurrenceExamples.UserIndexSample` | recsys/operator/data/cooccurrence.py:97-131 | for the same rows, the user index is {(u1,u2): [i1,i1,i2,i2]} |
| `CooccurrenceExamples.ItemIndexExample` | recsys/operator/data/cooccurrence.py:177-198 | the five-row example gives the item index {(10,20): [1,1,2,2]} |
| `CooccurrenceExamples.UserIndexExample` | recsys/operator/data/cooccurrence.py:97-131 | the five-row example gives the user index {(1,2): [10,10,20,20]} |
| `CooccurrenceOperators.Envelope` | recsys/operator/data/cooccurrence.py:167-206 | a run skips iff the destination exists and is not forced; it raises iff the source is missing or not a table; a built index has only sorted distinct keys |
| `CooccurrenceOperators.Skips` | recsys/operator/data/cooccurrence.py:91 | `_skip`: holds iff the destination already exists in the store and the run is not forced |
| `CooccurrenceOperators.After` | recsys/operator/data/cooccurrence.py:204 | only a build writes the store, and it writes the returned index under the destination alone |
| `CooccurrenceOperators.AppendItemPairs` | recsys/operator/data/cooccurrence.py:191-198 | the item pair loop computes `Visits` of the group's user over the product |
| `CooccurrenceOperators.ExtendUserPairs` | recsys/operator/data/cooccurrence.py:111-131 | the user pair loop computes `Visits` of the group's join over the product |
| `CooccurrenceOperators.BuildItemIndex` | recsys/operator/data/cooccurrence.py:169-198 | the nested loops of the item variant build exactly `BuildIndex(ItemIndex, rows)` |
| `CooccurrenceOperators.BuildUserIndex` | recsys/operator/data/cooccurrence.py:89-131 | the nested loops of the user variant build exactly `BuildIndex(UserIndex, rows)` |
| `CooccurrenceOperators.ItemCooccurrenceIndex.constructor` | recsys/operator/data/cooccurrence.py:44-54 | source, destination, force and the column names as given, defaulting to "userId", "movieId" and False; empty cache |
| `CooccurrenceOperators.ItemCooccurrenceIndex.Execute` | recsys/operator/data/cooccurrence.py:166-206 | a cached call returns the cached result and leaves the store alone; otherwise the result is `Envelope`, the store afterwards is `After`, and only non-raising results are cached |
| `CooccurrenceOperators.UserCooccurrenceIndex.constructor` | recsys/operator/data/cooccurrence.py:44-54 | source, destination, force and the column names as given, defaulting to "userId", "movieId" and False; empty cache |
| `CooccurrenceOperators.UserCooccurrenceIndex.Execute` | recsys/operator/data/cooccurrence.py:86-138 | a cached call returns the cached result and leaves the store alone; otherwise the result is `Envelope`, the store afterwards is `After`, and only non-raising results are cached |
| `CooccurrenceOperators.PersistsWhatItReturns` | recsys/operator/data/cooccurrence.py:136-138 | a build returns `BuildIndex` of the source table and persists that same index |
| `ArtifactStore.Store.Put` | recsys/operator/data/cooccurrence.py:136 | `_put_data` stores the value under the endpoint, replacing what was there, and changes no other endpoint |
| `CooccurrenceOperators.SecondRunSkips` | recsys/operator/data/cooccurrence.py:91 | after a build, an unforced run against the same destination skips and writes nothing |
| `Compress.Basename` | recsys/operator/io/compress.py:56 | the base name holds no "/", is a suffix of the path, and starts right after a "/" or at the start |
| `Compress.IsDirectoryName` | recsys/operator/io/compress.py:54 | `filename[-1] == "/"`: holds iff the name is non-empty and ends in "/" |
| `Compress.Selected` | recsys/operator/io/compress.py:54-58 | holds iff the entry is extracted: a non-empty name not ending in "/", and, when a member is given, a base name equal to it |
| `Compress.Fails` | recsys/operator/io/compress.py:54-63 | holds iff the entry raises: an empty name (`filename[-1]`), or a selected entry whose base name is "." or ".." |
| `Compress.Step` | recsys/operator/io/compress.py:54-63 | one entry: it raises iff the entry fails (empty name, or a selected "."/".." base name), changing nothing; otherwise a selected entry is written under its base name and any other entry changes nothing |
| `Compress.Extract` | recsys/operator/io/compress.py:53-63 | the entry loop in archive order, stopping at the first raise: no file of the directory disappears, and every name it adds contains no "/" |
| `Compress.StepFails` | recsys/operator/io/compress.py:54-63 | one entry raises iff its name is empty or it is selected with base name "." or ".."; otherwise a selected entry writes its base name |
| `Compress.StopsIffFails` | recsys/operator/io/compress.py:53-63 | the loop raises iff some entry fails |
| `Compress.StopsAtFirstFailure` | recsys/operator/io/compress.py:53-63 | on a raise, the directory holds what the entries before the first failing one wrote |
| `Compress.ExtractContents` | recsys/operator/io/compress.py:53-63 | after a complete loop each selected base name holds the content of the last entry with that name; other files are unchanged |
| `Compress.DirectoriesIgnored` | recsys/operator/io/compress.py:54-55 | dropping the entries whose name ends in "/" leaves the loop's result unchanged |
| `Compress.FlatNames` | recsys/operator/io/compress.py:56 | every name the loop adds to the directory contains no "/" |
| `Compress.MemberOnly` | recsys/operator/io/compress.py:57-61 | with a member named, no other file of the directory changes, even when the loop raises |
| `Compress.StopPersists` | recsys/operator/io/compress.py:53-63 | once an entry raises, the later entries change nothing |
| `Compress.ExtractOutcome` | recsys/operator/io/compress.py:45-64 | a run skips iff the destination exists and is not forced; a skip or a file at the destination leaves the directories unchanged; otherwise the destination directory exists afterwards; no other directory changes |
| `Compress.ZipSkips` | recsys/operator/io/compress.py:48 | `_skip`: holds iff the destination exists, as a directory or a file, and the run is not forced |
| `Compress.ExtractEntries` | recsys/operator/io/compress.py:52-63 | the entry loop writes the files of `Extract` into the destination and reports the error it stopped on |
| `Compress.ExtractEntry` | recsys/operator/io/compress.py:54-63 | one pass of the loop body changes only the destination directory, as `Step` says, and reports the error `Step` stops on |
| `Compress.ZipExtractor.constructor` | recsys/operator/io/compress.py:39-43 | source, destination, member and force as given, member defaulting to None and force to False |
| `Compress.Disk.MakeDirs` | recsys/operator/io/compress.py:50 | `os.makedirs(..., exist_ok=True)`: creates an empty directory when none exists, keeps an existing one as it is, and changes no file |
| `Compress.Disk.WriteFile` | recsys/operator/io/compress.py:59 | the write `zip.extract` does: one file of one directory gets the data, nothing else changes |
| `Compress.SourceNotAFile` | recsys/operator/io/compress.py:50-52 | once the destination exists, a source that is not a file raises `IsADirectoryError` when it is a directory (the fresh destination included) and `FileNotFoundError` otherwise |
| `Compress.ZipExtractor.Execute` | recsys/operator/io/compress.py:45-64 | the result and the directories afterwards are `ExtractOutcome` of the state before; no other file changes |
| `Compress.SkipTouchesNothing` | recsys/operator/io/compress.py:48 | an unforced run on an existing destination creates and extracts nothing |
| `Compress.DestinationCreated` | recsys/operator/io/compress.py:48-52 | a run that is not skipped leaves the destination directory in place, even if the archive is missing or no entry matches |

## Left out

- `CooccurrenceOperators.ItemCooccurrenceIndex.constructor`: `source` and `destination`
  are required strings here, while the Python `__init__` defaults both to `None`
  (recsys/operator/data/cooccurrence.py:154-160). The `None` defaults, and what the
  `Operator` base class does with a missing endpoint, are not modelled: the base class
  is not part of this model.
- `CooccurrenceOperators.UserCooccurrenceIndex.constructor`: `source` and `destination`
  are required strings here, while the Python `__init__` defaults both to `None`
  (recsys/operator/data/cooccurrence.py:74-80). The `None` defaults, and what the
  `Operator` base class does with a missing endpoint, are not modelled: the base class
  is not part of this model.
- `CooccurrenceOperators.UserCooccurrenceIndex.Execute`: selects and merges on the literal
  columns "userId" and "movieId" (recsys/operator/data/cooccurrence.py:117-125), not on
  the configured `uservar`/`itemvar`. The table is modelled as `(user, item)` rows, so
  the model behaves as with the default column names. With other names the Python code raises
  a `KeyError` or reads the wrong column; the model does not capture this.
- `CooccurrenceOperators.ItemCooccurrenceIndex.Execute` and
  `CooccurrenceOperators.UserCooccurrenceIndex.Execute`: only the `data=None` call is
  modelled, which fetches the table from `source`. Passing a DataFrame fails in Python
  before any work is done: `@cache` cannot hash it, and `data or ...` cannot take its
  truth value.
- The failing store read, the `groupby` on a non-table, and the error logging and
  re-raising are collapsed into the two `Error` values. Logging is left out.
- The operator base class (`_skip`, `_get_data`, `_put_data`) is not part of this model.
  - Its skip rule is taken to be "destination exists and not forced".
  - Its store is a map from endpoint names to values.
  - Pickle and CSV formats are not modelled.
- `tqdm` progress bars are left out.
- The body of the library `cartesian_product` is not part of this model. Its result is
  taken as every ordered pair of positions in row-major order. The index's keys and
  lists do not depend on that order (`Combinations.ProductCount`,
  `CooccurrenceSpec.VisitsGet`).
- The key order of the returned and persisted dictionary is not modelled. In Python it
  is the order in which keys are first created, which follows the group order and
  `cartesian_product`'s order; the model's `map` has no key order.
- The pandas merge is modelled only by what it yields inside one item group: the left
  rows in order, each matched with every right row of the same item.
- Integer widths of numpy ids: ids are unbounded integers.
- The `cache` of `execute` is a per-object field. It stores skipped and built results but
  not raised ones, as `functools.cache` does.
- `Compress.ZipExtractor.Execute`: decompression, CRC checks, passwords and the bytes
  read from the archive are not modelled. An entry's content is a byte sequence given
  with its name.
- `Compress.ZipExtractor.Execute`: entry names are taken after zipfile has read them,
  including its truncation at a NUL character. Path handling is POSIX: "\" is not a
  separator and there are no drive letters.
- `Compress.ZipExtractor.Execute`: an empty destination is treated as a directory named
  "". In Python `os.makedirs("", exist_ok=True)` raises `FileNotFoundError`; the model
  does not capture this.
- `Compress.ZipExtractor.Execute`: the destination is a single name, not a path.
  `os.makedirs` creating missing parent directories, and a destination that already
  holds sub-directories named like an entry, are not modelled. Permissions and other
  operating-system errors are not modelled.
- `Compress.Disk`: the archive and every other path in `files` are taken to lie outside
  the destination directory, and no path is both a file and a directory. An entry that
  overwrites the archive while it is being read is not modelled.
- Renaming `zip_info.filename` in place changes only the in-memory entry list of the
  archive, which is closed afterwards. It is modelled as a local name.
- Debug logging after extraction is left out.
