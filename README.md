# Violations by category — a Dafny model

This project models the core of a small Go program (`main.go`). The
program reads a CSV file of code-enforcement violations and groups them
into per-category buckets. For each category it can report the earliest
violation, the latest violation and the total count.

The model has five modules:

- `Wrappers` (`wrappers.dfy`): the `Option` and `Result` datatypes.
- `Violations` (`violation.dfy`): the `violation` record, and
  `NewViolation`, which builds a record from one split row.
  - Dates are integers ordered by `<`, which stands for `time.Time.Before`.
  - The zero date `0` stands for `time.Time{}`.
  - `time.Parse` and `strconv.Atoi` are function parameters that return
    `Option`. `None` is a parse error, which the program discards, keeping
    the zero value.
- `Categories` (`category.dfy`): the `category` bucket as a class.
  - It has an immutable `name` and a mutable `violations` sequence.
  - `addViolation` appends a violation and then runs `sort.Sort`, driven by
    the bucket's own `Len`, `Less` and `Swap`.
  - `sort.Sort` is modelled by the insertion sort that Go's sort package
    runs on short inputs. That sort uses only `Less` and `Swap`.
  - The invariant `Valid` says a bucket is non-empty and ordered by entry
    date.
- `DataSet` (`dataset.dfy`): `createDataSet`.
  - Opening the file either fails or yields the sequence of what
    `reader.Read()` returned: split rows, or read errors. The end of the
    sequence is `io.EOF`.
  - The first read, the header, is dropped whatever it holds.
  - Each later row is keyed by field 2. On first sight of a key the loop
    files a fresh one-violation bucket; otherwise it calls `addViolation`
    on the existing bucket.
  - A failed read ends the loop with the error and no map.
  - The loop is a method working on the map of heap-allocated buckets. It
    is tied, through the ghost function `Snapshot`, to a value-level
    grouping `GroupedFirst`.
  - `GroupedFirst` is in turn related to an independent, front-to-back
    reference definition of each bucket, `BucketBetween` / `Bucket`.
- `Download` (`download.dfy`): the local file name, which `downloadFile`
  takes from the last `/`-separated piece of the URL.
  - `strings.Split` is modelled together with its inverse `Join`.

Two behaviours of the code are kept as they are:

- `sort.Sort` is not stable, so nothing is promised about the order of
  equal entry dates.
- The code stores the zero time for an empty close-date field and for a
  failed parse alike, and so does the model.

## Model

| member | source | states |
|---|---|---|
| Violations.NewViolationFields | main.go:103-120 | field 0 gives `id` and field 1 gives `inspectionId`, both through `atoi`; field 3 gives `enteredDate` and field 4 gives `closedDate`, both through `parseDate`; field 5 gives `violationType` verbatim; a failed parse gives zero, and an empty field 4 gives the zero date without any parse |
| Violations.NewViolationPositional | main.go:103-120 | the record depends only on fields 0, 1, 3, 4 and 5: rows that agree on those give the same record, whatever field 2 and any later fields hold |
| Categories.OrderedIsSorted | main.go:70-73 | the neighbour-by-neighbour order kept in `Valid` is the same as every pair being in entry-date order |
| Categories.Category.constructor | main.go:184 | `&category{name, []violation{value}}`: the bucket has that name and exactly that one violation; it is valid and sorted; its earliest and latest are both that violation, and its total is 1 |
| Categories.Category.AddViolation | main.go:70-73 | afterwards the bucket is sorted by entry date and non-empty; its contents are a permutation of the old contents plus `v`; `TotalViolations` grows by exactly one |
| Categories.Category.GetEarliest | main.go:76-78 | needs a non-empty bucket; returns the first violation, and on a sorted bucket none has an earlier entry date |
| Categories.Category.GetLatest | main.go:80-82 | needs a non-empty bucket; returns the last violation, and on a sorted bucket none has a later entry date |
| Categories.Category.TotalViolations | main.go:84-86 | the number of violations held, counted as a multiset; at least 1 on a valid bucket |
| Categories.Category.Len | main.go:89-91 | `Len` of `sort.Interface` is the same count as the public `TotalViolations`, and at least 1 on a valid bucket |
| Categories.Category.Less | main.go:94-96 | true exactly when violation `i` was entered strictly before violation `j`; never true for `j <= i` on a sorted bucket |
| Categories.Category.Swap | main.go:99-101 | positions `i` and `j` are exchanged and every other position is unchanged; the contents stay the same multiset |
| Categories.Category.Sort | main.go:72 | `sort.Sort(c)` leaves the violations sorted by entry date and a permutation of what they were |
| Categories.Category.SiftDown | main.go:72 | one pass of the insertion sort, using `Less` and `Swap` only: with the first `i` violations in order, it leaves the first `i + 1` in order and the contents the same multiset |
| Download.Split | main.go:123 | `strings.Split` gives at least one piece; no piece holds the separator; joining the pieces with it gives back the input |
| Download.SplitJoin | main.go:123 | `Split` undoes `Join` on a non-empty list of separator-free pieces, so the pieces of a string are unique |
| Download.LocalFileName | main.go:123-124 | the file name has no '/'; it is a suffix of the URL, preceded by a '/' when it is shorter than the URL; it is the whole URL when the URL has no '/' |
| DataSet.DataReads | main.go:167-168 | the first read, the header, is dropped whatever it is; nothing remains of an empty file |
| DataSet.FirstErrorIsFirst | main.go:170-177 | there is no error exactly when every read gave a record; otherwise the error is that of a failed read with only records before it |
| DataSet.RowsOfRecords | main.go:170-180 | when no read failed, the rows are the fields of every read, one for one and in order |
| DataSet.ErrorStep | main.go:175-177 | a failed read with no failure before it is the error the loop returns |
| DataSet.RecordStep | main.go:171-180 | a record read with no failure before it is the next row to group |
| DataSet.GroupedNonEmpty | main.go:181-185 | no key of the grouping has an empty bucket |
| DataSet.BucketNonEmpty | main.go:179-185 | a reference bucket is non-empty exactly when some row carries that name in field 2 |
| DataSet.GroupedFirstBucket | main.go:179-185 | after any number of rows, the group of each name equals the reference bucket of those rows |
| DataSet.GroupedIsBuckets | main.go:179-185 | every row lands in the bucket keyed by its field 2: a name is a key exactly when some row carries it, and its bucket holds exactly the violations of those rows |
| DataSet.AddToGroupTotal | main.go:181-185 | filing one violation, in a new or an existing bucket, adds one to the sum of the bucket sizes |
| DataSet.GroupedTotal | main.go:179-185 | the bucket sizes sum to the number of data rows |
| DataSet.AddToBucket | main.go:181-182 | `val.addViolation(value)` on the bucket of `name` keeps every bucket filed under its own name, non-empty and sorted; the buckets now hold the old grouping with `value` added under `name` |
| DataSet.NewBucket | main.go:183-184 | a fresh one-violation bucket is filed under the new name; every old entry stays as it was; the buckets hold the grouping with `value` added |
| DataSet.Extended | main.go:184 | filing a valid one-violation bucket under a new name keeps the bucket invariant and adds that violation to the grouping |
| DataSet.Ingest | main.go:179-185 | one turn of the loop on a record: the scan advances by one row; the buckets stay valid and hold the grouping of one more row; every bucket is either an old one under its old key or freshly made |
| DataSet.GroupReads | main.go:165-188 | the loop returns the first read error when a read fails; otherwise it returns buckets that are valid, each under its own name, freshly allocated, and holding exactly the grouping of all rows |
| DataSet.GroupingDone | main.go:170-188 | the loop's final state is the promised result: names, validity, contents equal to the grouping, and sizes summing to the row count |
| DataSet.CreateDataSet | main.go:154-189 | an open failure gives that error; a read failure gives the first read error and no map; otherwise every bucket is non-empty, sorted and filed under its name, the buckets hold exactly the violations of the rows carrying that name, and their sizes sum to the number of data rows |

## Left out

- HTTP download and file handling in `downloadFile` (main.go:126-151): this is I/O. Only the file-name computation is modelled.
- CSV tokenising by `encoding/csv` (main.go:160-163): quoting, `TrimLeadingSpace` and `FieldsPerRecord`. Rows arrive already split, and any error the reader reports is a `ReadError`.
- The internals of `time.Parse` and `strconv.Atoi`: they are the parameters `parseDate` and `atoi`. The value `Atoi` returns alongside a range error is up to `atoi`.
- Printing in `main` and Go's unspecified map iteration order (main.go:46-66): output only.
- Category.Sort: stands for `sort.Sort` by the insertion sort Go runs on short slices. It promises sorted and permutation, not the pattern-defeating quicksort used on longer slices, and not stability, which `sort.Sort` does not give.
- NewViolation: requires six fields. In Go, a row with fewer fields is an index panic. The reader's `FieldsPerRecord = 0` makes every row as wide as the header, so `CreateDataSet` requires six fields of every data row (`Wide`) instead of modelling the panic.
- CreateDataSet: models the nil map returned alongside an error as `Failure`, which carries no map at all.
- A separate "absent" close-date state is not modelled, because the code stores the zero time.
- 64-bit integer width: `id`, `inspectionId` and the `Len`/`TotalViolations` results are unbounded integers. The row counts involved are far below the limit.
