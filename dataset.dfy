/** The grouping pass of `createDataSet` (main.go): rows into per-category buckets. */
module DataSet {
  import opened Wrappers
  import opened Violations
  import opened Categories

  /**
   * One `reader.Read()` of the CSV reader: a row already split into fields,
   * or an error other than `io.EOF`. The end of the sequence is `io.EOF`.
   */
  datatype ReadResult = Record(fields: seq<string>) | ReadError(err: string)

  /** The file `createDataSet` opens: `os.Open` failed, or the reads it then yields. */
  datatype Source = OpenFailed(err: string) | Opened(results: seq<ReadResult>)

  /** Rows that reach `NewViolation` must have all six fields. */
  ghost predicate Wide(rows: seq<seq<string>>) {
    forall f :: f in rows ==> |f| > ViolationTypeField
  }

  /** The reads after the header line, which is discarded whatever it holds. */
  function DataReads(results: seq<ReadResult>): (data: seq<ReadResult>)
    ensures |results| == 0 ==> data == []
    ensures |results| > 0 ==> results == [results[0]] + data
  {
    if |results| == 0 then [] else results[1..]
  }

  /** The error of the first failed read among the first `n` reads, if one of them failed. */
  function FirstErrorIn(results: seq<ReadResult>, n: nat): Option<string>
    requires n <= |results|
  {
    if n == 0 then None
    else
      match FirstErrorIn(results, n - 1)
      case Some(e) => Some(e)
      case None =>
        match results[n - 1]
        case ReadError(e) => Some(e)
        case Record(_) => None
  }

  /** The error of the first read that failed, if any read failed. */
  function FirstError(results: seq<ReadResult>): Option<string> {
    FirstErrorIn(results, |results|)
  }

  /** The rows among the first `n` reads that come before the first failed read. */
  function RowsIn(results: seq<ReadResult>, n: nat): seq<seq<string>>
    requires n <= |results|
  {
    if n == 0 then []
    else if FirstErrorIn(results, n - 1).Some? then RowsIn(results, n - 1)
    else
      match results[n - 1]
      case ReadError(_) => RowsIn(results, n - 1)
      case Record(f) => RowsIn(results, n - 1) + [f]
  }

  /** The rows read before the first failed read. */
  function Rows(results: seq<ReadResult>): seq<seq<string>> {
    RowsIn(results, |results|)
  }

  /**
   * `FirstErrorIn` is what its name says: no error when each of the first
   * `n` reads gave a record, and otherwise the error of a failed read with
   * only records before it.
   */
  lemma {:induction false} FirstErrorIsFirst(results: seq<ReadResult>, n: nat)
    requires n <= |results|
    ensures FirstErrorIn(results, n).None? <==> forall i :: 0 <= i < n ==> results[i].Record?
    ensures FirstErrorIn(results, n).Some? ==>
              exists i :: 0 <= i < n && results[i] == ReadError(FirstErrorIn(results, n).value) &&
                          forall j :: 0 <= j < i ==> results[j].Record?
  {
    if n > 0 {
      FirstErrorIsFirst(results, n - 1);
    }
  }

  /** When none of the first `n` reads failed, the rows are the fields of each of them, in order. */
  lemma {:induction false} RowsOfRecords(results: seq<ReadResult>, n: nat)
    requires n <= |results|
    requires FirstErrorIn(results, n).None?
    ensures |RowsIn(results, n)| == n
    ensures forall i :: 0 <= i < n ==> results[i] == Record(RowsIn(results, n)[i])
  {
    if n > 0 {
      RowsOfRecords(results, n - 1);
    }
  }

  /** Once a read has failed, later reads do not change which error is first. */
  lemma {:induction false} FirstErrorStays(results: seq<ReadResult>, i: nat, n: nat)
    requires i <= n <= |results|
    requires FirstErrorIn(results, i).Some?
    ensures FirstErrorIn(results, n) == FirstErrorIn(results, i)
    decreases n - i
  {
    if i < n {
      FirstErrorStays(results, i, n - 1);
    }
  }

  /** The rows of fewer reads are a prefix of the rows of more. */
  lemma {:induction false} RowsPrefix(results: seq<ReadResult>, i: nat, n: nat)
    requires i <= n <= |results|
    ensures RowsIn(results, i) <= RowsIn(results, n)
    decreases n - i
  {
    if i < n {
      RowsPrefix(results, i, n - 1);
    }
  }

  /** Adds `v` to the bucket of `name`, starting that bucket if there is none. */
  function AddToGroup(g: map<string, multiset<Violation>>, name: string, v: Violation): map<string, multiset<Violation>> {
    g[name := Group(g, name) + multiset{v}]
  }

  /** The bucket of `name` in `g`, empty when `name` has none. */
  function Group(g: map<string, multiset<Violation>>, name: string): multiset<Violation> {
    if name in g then g[name] else multiset{}
  }

  /**
   * The buckets as values, after the first `n` rows: for each category name
   * in field 2 of one of them, the multiset of violations built from its
   * rows, added in the order the loop of `createDataSet` adds them.
   */
  function GroupedFirst(rows: seq<seq<string>>, n: nat, parseDate: string -> Option<Date>, atoi: string -> Option<int>):
    map<string, multiset<Violation>>
    requires Wide(rows) && n <= |rows|
  {
    if n == 0 then map[]
    else
      var row := rows[n - 1];
      assert row in rows;
      AddToGroup(GroupedFirst(rows, n - 1, parseDate, atoi), row[CategoryField], NewViolation(row, parseDate, atoi))
  }

  /** The buckets as values, after all the rows. */
  function Grouped(rows: seq<seq<string>>, parseDate: string -> Option<Date>, atoi: string -> Option<int>):
    map<string, multiset<Violation>>
    requires Wide(rows)
  {
    GroupedFirst(rows, |rows|, parseDate, atoi)
  }

  /** No group is empty: a name is present only once a row has brought a violation to it. */
  lemma {:induction false} GroupedNonEmpty(rows: seq<seq<string>>, n: nat, parseDate: string -> Option<Date>, atoi: string -> Option<int>)
    requires Wide(rows) && n <= |rows|
    ensures forall k :: k in GroupedFirst(rows, n, parseDate, atoi) ==> |GroupedFirst(rows, n, parseDate, atoi)[k]| > 0
  {
    if n > 0 {
      GroupedNonEmpty(rows, n - 1, parseDate, atoi);
    }
  }

  /**
   * Reference definition of one bucket: the violations of rows `lo` up to
   * `hi` whose field 2 is `name`, collected from the front.
   */
  function BucketBetween(rows: seq<seq<string>>, lo: nat, hi: nat, name: string,
                         parseDate: string -> Option<Date>, atoi: string -> Option<int>): multiset<Violation>
    requires Wide(rows) && lo <= hi <= |rows|
    decreases hi - lo
  {
    if lo == hi then multiset{}
    else
      assert rows[lo] in rows;
      (if rows[lo][CategoryField] == name then multiset{NewViolation(rows[lo], parseDate, atoi)} else multiset{})
      + BucketBetween(rows, lo + 1, hi, name, parseDate, atoi)
  }

  /** The violations of all rows whose field 2 is `name`. */
  function Bucket(rows: seq<seq<string>>, name: string, parseDate: string -> Option<Date>, atoi: string -> Option<int>): multiset<Violation>
    requires Wide(rows)
  {
    BucketBetween(rows, 0, |rows|, name, parseDate, atoi)
  }

  /** Collecting from the front agrees with adding one more row at the back. */
  lemma {:induction false} BucketExtend(rows: seq<seq<string>>, lo: nat, hi: nat, name: string,
                                       parseDate: string -> Option<Date>, atoi: string -> Option<int>)
    requires Wide(rows) && lo <= hi < |rows|
    ensures rows[hi] in rows
    ensures BucketBetween(rows, lo, hi + 1, name, parseDate, atoi) ==
            BucketBetween(rows, lo, hi, name, parseDate, atoi) +
            (if rows[hi][CategoryField] == name then multiset{NewViolation(rows[hi], parseDate, atoi)} else multiset{})
    decreases hi - lo
  {
    if lo < hi {
      BucketExtend(rows, lo + 1, hi, name, parseDate, atoi);
    }
  }

  /** A reference bucket is non-empty exactly when one of its rows carries the name in field 2. */
  lemma {:induction false} BucketNonEmpty(rows: seq<seq<string>>, lo: nat, hi: nat, name: string,
                                         parseDate: string -> Option<Date>, atoi: string -> Option<int>)
    requires Wide(rows) && lo <= hi <= |rows|
    ensures BucketBetween(rows, lo, hi, name, parseDate, atoi) != multiset{} <==>
            exists j :: lo <= j < hi && rows[j][CategoryField] == name
    decreases hi - lo
  {
    if lo < hi {
      BucketNonEmpty(rows, lo + 1, hi, name, parseDate, atoi);
      if exists j :: lo <= j < hi && rows[j][CategoryField] == name {
        var j :| lo <= j < hi && rows[j][CategoryField] == name;
        assert j == lo || lo + 1 <= j;
      }
    }
  }

  /** After the first `n` rows, the bucket of a name is the reference bucket of those rows. */
  lemma {:induction false} GroupedFirstBucket(rows: seq<seq<string>>, n: nat, name: string,
                                             parseDate: string -> Option<Date>, atoi: string -> Option<int>)
    requires Wide(rows) && n <= |rows|
    ensures Group(GroupedFirst(rows, n, parseDate, atoi), name) == BucketBetween(rows, 0, n, name, parseDate, atoi)
  {
    if n > 0 {
      GroupedFirstBucket(rows, n - 1, name, parseDate, atoi);
      BucketExtend(rows, 0, n - 1, name, parseDate, atoi);
    }
  }

  /**
   * Every row lands in the bucket keyed by its field 2: a key is present
   * exactly when some row carries it, and its bucket holds exactly the
   * violations of the rows that carry it.
   */
  lemma GroupedIsBuckets(rows: seq<seq<string>>, name: string, parseDate: string -> Option<Date>, atoi: string -> Option<int>)
    requires Wide(rows)
    ensures name in Grouped(rows, parseDate, atoi) <==> exists j :: 0 <= j < |rows| && rows[j][CategoryField] == name
    ensures name in Grouped(rows, parseDate, atoi) ==> Grouped(rows, parseDate, atoi)[name] == Bucket(rows, name, parseDate, atoi)
    ensures name !in Grouped(rows, parseDate, atoi) ==> Bucket(rows, name, parseDate, atoi) == multiset{}
  {
    GroupedNonEmpty(rows, |rows|, parseDate, atoi);
    GroupedFirstBucket(rows, |rows|, name, parseDate, atoi);
    BucketNonEmpty(rows, 0, |rows|, name, parseDate, atoi);
  }

  /** Some key of a non-empty map. */
  ghost function PickKey(g: map<string, multiset<Violation>>): (k: string)
    requires g != map[]
    ensures k in g
  {
    assert g.Keys != {};
    var k :| k in g; k
  }

  /** The sum, over all buckets, of their sizes. */
  ghost function TotalSize(g: map<string, multiset<Violation>>): nat
    decreases |g|
  {
    if g == map[] then 0
    else
      var k := PickKey(g);
      |g[k]| + TotalSize(g - {k})
  }

  /** The sum does not depend on which key is taken first. */
  lemma {:induction false} TotalSizeRemove(g: map<string, multiset<Violation>>, k: string)
    requires k in g
    ensures TotalSize(g) == |g[k]| + TotalSize(g - {k})
    decreases |g|
  {
    var p := PickKey(g);
    if p != k {
      TotalSizeRemove(g - {p}, k);
      TotalSizeRemove(g - {k}, p);
      assert g - {p} - {k} == g - {k} - {p};
    }
  }

  /** Replacing one bucket changes the total by the difference in its size. */
  lemma TotalSizeUpdate(g: map<string, multiset<Violation>>, k: string, m: multiset<Violation>)
    ensures TotalSize(g[k := m]) == TotalSize(g) - (if k in g then |g[k]| else 0) + |m|
  {
    TotalSizeRemove(g[k := m], k);
    assert g[k := m] - {k} == g - {k};
    if k in g {
      TotalSizeRemove(g, k);
    } else {
      assert g - {k} == g;
    }
  }

  /** Adding one violation to a grouping adds one to its total size. */
  lemma AddToGroupTotal(g: map<string, multiset<Violation>>, name: string, v: Violation)
    ensures TotalSize(AddToGroup(g, name, v)) == TotalSize(g) + 1
  {
    TotalSizeUpdate(g, name, Group(g, name) + multiset{v});
  }

  /** Summing the bucket sizes gives the number of rows grouped. */
  lemma {:induction false} GroupedTotal(rows: seq<seq<string>>, n: nat, parseDate: string -> Option<Date>, atoi: string -> Option<int>)
    requires Wide(rows) && n <= |rows|
    ensures TotalSize(GroupedFirst(rows, n, parseDate, atoi)) == n
  {
    if n > 0 {
      GroupedTotal(rows, n - 1, parseDate, atoi);
      var row := rows[n - 1];
      assert row in rows;
      AddToGroupTotal(GroupedFirst(rows, n - 1, parseDate, atoi), row[CategoryField], NewViolation(row, parseDate, atoi));
    }
  }

  /** A failed read after none failed is the first error. */
  lemma ErrorStep(data: seq<ReadResult>, i: nat)
    requires i < |data| && data[i].ReadError?
    requires FirstErrorIn(data, i).None?
    ensures FirstError(data) == Some(data[i].err)
  {
    FirstErrorStays(data, i + 1, |data|);
  }

  /** A record read after no failure is the next row. */
  lemma RecordStep(data: seq<ReadResult>, i: nat)
    requires i < |data| && data[i].Record?
    requires FirstErrorIn(data, i).None?
    ensures FirstErrorIn(data, i + 1).None?
    ensures i < |Rows(data)| && Rows(data)[i] == data[i].fields
  {
    RowsOfRecords(data, i + 1);
    RowsPrefix(data, i + 1, |data|);
  }

  /** The contents of each bucket of a data set, as values. */
  ghost function Snapshot(categories: map<string, Category>): map<string, multiset<Violation>>
    reads categories.Values
  {
    map k | k in categories :: multiset(categories[k].violations)
  }

  /** The buckets `categories` hold, key by key, the multisets of `g`. */
  ghost predicate Holds(categories: map<string, Category>, g: map<string, multiset<Violation>>)
    reads categories.Values
  {
    Snapshot(categories) == g
  }

  /** Every bucket is filed under its own name and is non-empty and sorted. */
  ghost predicate Buckets(categories: map<string, Category>)
    reads categories.Values
  {
    forall k :: k in categories ==> categories[k].name == k && categories[k].Valid()
  }

  /** The first branch of the loop body: `val.addViolation(value)` on the bucket of `name`. */
  method AddToBucket(categories: map<string, Category>, name: string, value: Violation, ghost g: map<string, multiset<Violation>>)
    requires Buckets(categories) && Holds(categories, g)
    requires name in categories
    modifies categories[name]
    ensures Buckets(categories) && Holds(categories, AddToGroup(g, name, value))
  {
    var bucket := categories[name];
    bucket.AddViolation(value);
    forall k | k in categories
      ensures categories[k].name == k && categories[k].Valid()
      ensures multiset(categories[k].violations) == AddToGroup(g, name, value)[k]
    {
      if k != name {
        assert categories[k].name != bucket.name;
      }
    }
  }

  /** The second branch: `categories[name] = &category{name, []violation{value}}`. */
  method NewBucket(categories: map<string, Category>, name: string, value: Violation, ghost g: map<string, multiset<Violation>>)
    returns (updated: map<string, Category>)
    requires Buckets(categories) && Holds(categories, g)
    requires name !in categories
    ensures Buckets(updated) && Holds(updated, AddToGroup(g, name, value))
    ensures name in updated && updated == categories[name := updated[name]]
    ensures fresh(updated[name])
  {
    var bucket := new Category(name, value);
    Extended(categories, name, value, bucket, g);
    updated := categories[name := bucket];
  }

  /** Filing a bucket under a name changes the snapshot at that name only. */
  lemma SnapshotUpdate(categories: map<string, Category>, name: string, bucket: Category)
    ensures Snapshot(categories[name := bucket]) == Snapshot(categories)[name := multiset(bucket.violations)]
  {
  }

  /** Filing a fresh one-violation bucket under a new name keeps the buckets in step with the grouping. */
  lemma Extended(categories: map<string, Category>, name: string, value: Violation, bucket: Category,
                 g: map<string, multiset<Violation>>)
    requires Buckets(categories) && Holds(categories, g)
    requires name !in categories
    requires bucket.name == name && bucket.Valid() && bucket.violations == [value]
    ensures Buckets(categories[name := bucket])
    ensures Holds(categories[name := bucket], AddToGroup(g, name, value))
  {
    var updated := categories[name := bucket];
    forall k | k in updated
      ensures updated[k].name == k && updated[k].Valid()
    {
      if k != name {
        assert updated[k] == categories[k];
      }
    }
    SnapshotUpdate(categories, name, bucket);
    assert name !in Snapshot(categories);
    assert multiset(bucket.violations) == Group(g, name) + multiset{value};
  }

  /**
   * `createDataSet`: discards the header, then for each later row adds its
   * violation to the bucket named by field 2, creating a one-violation
   * bucket on first sight of a name. An open or read error gives the error
   * and no data set at all.
   */
  method CreateDataSet(source: Source, parseDate: string -> Option<Date>, atoi: string -> Option<int>)
    returns (result: Result<map<string, Category>, string>)
    requires source.Opened? ==> Wide(Rows(DataReads(source.results)))
    ensures source.OpenFailed? ==> result == Failure(source.err)
    ensures source.Opened? ==> Grouping(DataReads(source.results), parseDate, atoi, result)
  {
    match source
    case OpenFailed(e) =>
      return Failure(e);
    case Opened(results) =>
      result := GroupReads(DataReads(results), parseDate, atoi);
      if result.Success? {
        GroupingDone(DataReads(results), parseDate, atoi, result.value);
      }
  }

  /** What the loop of `createDataSet` returns for the reads after the header. */
  ghost predicate Grouping(data: seq<ReadResult>, parseDate: string -> Option<Date>, atoi: string -> Option<int>,
                           result: Result<map<string, Category>, string>)
    requires Wide(Rows(data))
    reads if result.Success? then result.value.Values else {}
  {
    match FirstError(data)
    case Some(e) => result == Failure(e)
    case None =>
      && result.Success?
      && var categories, rows := result.value, Rows(data);
      && (forall k :: k in categories ==> categories[k].name == k && categories[k].Valid())
      && Snapshot(categories) == Grouped(rows, parseDate, atoi)
      && TotalSize(Snapshot(categories)) == |rows|
  }

  /** The first `i` reads hold no error, and `g` groups the rows they gave. */
  ghost predicate Scanned(data: seq<ReadResult>, i: nat, parseDate: string -> Option<Date>, atoi: string -> Option<int>,
                          g: map<string, multiset<Violation>>)
  {
    && Wide(Rows(data))
    && i <= |data|
    && i <= |Rows(data)|
    && FirstErrorIn(data, i).None?
    && g == GroupedFirst(Rows(data), i, parseDate, atoi)
  }

  /** One turn of the loop of `createDataSet` on a row that was read. */
  method Ingest(data: seq<ReadResult>, i: nat, parseDate: string -> Option<Date>, atoi: string -> Option<int>,
                categories: map<string, Category>, ghost g: map<string, multiset<Violation>>)
    returns (updated: map<string, Category>, ghost g': map<string, multiset<Violation>>)
    requires i < |data| && data[i].Record?
    requires Scanned(data, i, parseDate, atoi, g)
    requires Buckets(categories) && Holds(categories, g)
    modifies categories.Values
    ensures Scanned(data, i + 1, parseDate, atoi, g')
    ensures Buckets(updated) && Holds(updated, g')
    ensures forall k :: k in updated ==> (k in categories && updated[k] == categories[k]) || fresh(updated[k])
  {
    RecordStep(data, i);
    var line := data[i].fields;
    assert line in Rows(data);
    var value := NewViolation(line, parseDate, atoi);
    var name := line[CategoryField];
    g' := AddToGroup(g, name, value);
    if name in categories {
      AddToBucket(categories, name, value, g);
      updated := categories;
    } else {
      updated := NewBucket(categories, name, value, g);
    }
  }

  /** When no read failed, the buckets the loop leaves are the result it promises. */
  lemma GroupingDone(data: seq<ReadResult>, parseDate: string -> Option<Date>, atoi: string -> Option<int>,
                     categories: map<string, Category>)
    requires FirstError(data).None? && Wide(Rows(data))
    requires Buckets(categories) && Holds(categories, Grouped(Rows(data), parseDate, atoi))
    ensures Grouping(data, parseDate, atoi, Success(categories))
  {
    GroupedTotal(Rows(data), |Rows(data)|, parseDate, atoi);
  }

  /** The loop of `createDataSet` over the reads after the header. */
  method GroupReads(data: seq<ReadResult>, parseDate: string -> Option<Date>, atoi: string -> Option<int>)
    returns (result: Result<map<string, Category>, string>)
    requires Wide(Rows(data))
    ensures result.Failure? ==> FirstError(data) == Some(result.error)
    ensures result.Success? ==> FirstError(data).None? && Buckets(result.value)
    ensures result.Success? ==> Holds(result.value, Grouped(Rows(data), parseDate, atoi))
    ensures result.Success? ==> forall k :: k in result.value ==> fresh(result.value[k])
  {
    var categories: map<string, Category> := map[];
    ghost var g: map<string, multiset<Violation>> := map[];
    var i := 0;
    while i < |data|
      invariant Scanned(data, i, parseDate, atoi, g)
      invariant Buckets(categories) && Holds(categories, g)
      invariant forall k :: k in categories ==> fresh(categories[k])
    {
      if data[i].ReadError? {
        ErrorStep(data, i);
        return Failure(data[i].err);
      }
      categories, g := Ingest(data, i, parseDate, atoi, categories, g);
      i := i + 1;
    }
    RowsOfRecords(data, |data|);
    return Success(categories);
  }
}
