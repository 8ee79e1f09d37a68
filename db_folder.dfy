/** DBFolder: the cache of one folder of calibration constants fetched from the
    web database, with its interval of validity, its column schema and a
    one-row lookup cache. */
module WebDBI {
  import opened Results
  import opened Decimal
  import opened IOVData
  import opened TimeStampDecoder
  import opened Wda

  /** Tuples 0-3 of a fetched table: validity start, validity end, column names, column types. */
  const HeaderRows := 4
  /** Attempts the fetch makes before it gives up. */
  const MaxTries := 7
  const StatusOK := 200
  /** Seconds of the first back-off window; the window doubles after every failure. */
  const BaseDelay := 5

  datatype FolderError =
    | TimeStampError(cause: IOVDataError)
    | HttpError(status: int, message: string)
    | DataNotFound(time: string)
    | ChannelNotFound(channel: u64)
    | ColumnNotFound(name: string)

  /** A resolved lookup: the data row, the column index and the row's tuple. */
  datatype Lookup = Lookup(row: int, column: nat, tuple: Option<Tuple>)

  function Pow2(k: nat): (r: nat)
    ensures r >= 1
  {
    if k == 0 then 1 else 2 * Pow2(k - 1)
  }

  /** Integer halving as C++ does it: the quotient is truncated toward zero. */
  function Half(x: int): (h: int)
    ensures x >= 0 ==> 2 * h <= x <= 2 * h + 1
    ensures x < 0 ==> 2 * h - 1 <= x <= 2 * h
  {
    if x >= 0 then x / 2 else -((-x) / 2)
  }

  /** Column 0 of data row `row`, as the lookup reads and converts it. */
  function ChannelAt(ds: Option<Dataset>, row: int): u64
  {
    ToUInt64(GetLongValue(GetTuple(ds, row + HeaderRows), 0).value)
  }

  /** The data rows are in strictly ascending channel order. */
  ghost predicate SortedRows(ds: Option<Dataset>, n: int)
  {
    forall i, j :: 0 <= i < j < n ==> ChannelAt(ds, i) < ChannelAt(ds, j)
  }

  /** Column c is the first column after the channel column that carries the name. */
  ghost predicate IsFirstColumn(columns: seq<string>, name: string, c: int)
  {
    && 1 <= c < |columns|
    && columns[c] == name
    && forall j :: 1 <= j < c ==> columns[j] != name
  }

  ghost predicate NoColumn(columns: seq<string>, name: string)
  {
    forall j :: 1 <= j < |columns| ==> columns[j] != name
  }

  /** The text of field i of a tuple, as the header reader sees it. */
  function FieldTexts(t: Tuple): (texts: seq<string>)
  {
    seq(|t|, c requires 0 <= c < |t| => GetStringValue(Some(t), c).value)
  }

  /** Field 0 of header tuple i. */
  function HeaderText(ds: Dataset, i: nat): string
  {
    GetStringValue(GetTuple(Some(ds), i), 0).value
  }

  /** The URL is used as given, except that one trailing '/' is dropped. */
  function StripTrailingSlash(url: string): (r: string)
    requires |url| > 0
    ensures url[|url| - 1] == '/' ==> r + "/" == url
    ensures url[|url| - 1] != '/' ==> r == url
  {
    if url[|url| - 1] == '/' then url[..|url| - 1] else url
  }

  function TagQuery(tag: string): string
  {
    if |tag| > 0 then "&tag=" + tag else ""
  }

  /** The data request: folder name, the time in canonical text form and, when given, the tag. */
  function RequestURL(base: string, folder: string, tag: string, stamp: string): string
  {
    base + "/data?f=" + folder + "&t=" + stamp + TagQuery(tag)
  }

  // ---------------------------------------------------------------------
  // The steps of a lookup and of a refresh

  /** The binary search by channel over data rows [0, n) (l, h and row as in the source). */
  method SearchRow(ds: Option<Dataset>, n: int, channel: u64) returns (row: int)
    ensures n >= 1 ==> 0 <= row < n
    ensures n < 1 ==> row == Half(n - 1)
    ensures SortedRows(ds, n) ==>
      forall k :: 0 <= k < n && ChannelAt(ds, k) == channel ==> row == k
  {
    var l, h := 0, n - 1;
    row := Half(l + h);
    while l <= h
      invariant 0 <= l && h < n
      invariant n >= 1 ==> l <= h + 1
      invariant n < 1 ==> l == 0 && h == n - 1
      invariant row == Half(l + h)
      invariant SortedRows(ds, n) ==>
        forall k :: 0 <= k < n && ChannelAt(ds, k) == channel ==> l <= k <= h
      decreases h - l
    {
      var val := ChannelAt(ds, row);
      if val == channel {
        break;
      }
      if val > channel {
        h := row - 1;
      } else {
        l := row + 1;
      }
      row := Half(l + h);
    }
  }

  /** The column scan: names are matched exactly, from index 1 on. */
  method FindColumn(columns: seq<string>, name: string) returns (c: Option<nat>)
    ensures c.Some? ==> IsFirstColumn(columns, name, c.value)
    ensures c.None? ==> NoColumn(columns, name)
  {
    var i := 1;
    while i < |columns|
      invariant 1 <= i
      invariant forall j :: 1 <= j < i && j < |columns| ==> columns[j] != name
    {
      if name == columns[i] {
        return Some(i);
      }
      i := i + 1;
    }
    return None;
  }

  /** The retry loop: responses[i] is what the remote service answers to attempt i;
      after a failed attempt i the loop sleeps a random delay below 5 * 2^i seconds. */
  method FetchWithRetry(responses: seq<Dataset>) returns (last: Dataset, attempts: nat, delays: seq<nat>)
    requires |responses| >= MaxTries
    ensures 1 <= attempts <= MaxTries
    ensures last == responses[attempts - 1]
    ensures forall i :: 0 <= i < attempts - 1 ==> responses[i].status != StatusOK
    ensures last.status != StatusOK ==> attempts == MaxTries
    ensures |delays| == if last.status == StatusOK then attempts - 1 else attempts
    ensures forall i :: 0 <= i < |delays| ==> delays[i] < BaseDelay * Pow2(i)
  {
    var status := -1;
    attempts, delays := 0, [];
    last := responses[0];
    while status != StatusOK && attempts < MaxTries
      invariant 0 <= attempts <= MaxTries
      invariant attempts == 0 ==> status == -1
      invariant attempts > 0 ==> last == responses[attempts - 1] && status == last.status
      invariant forall i :: 0 <= i < attempts - 1 ==> responses[i].status != StatusOK
      invariant |delays| == if status == StatusOK then attempts - 1 else attempts
      invariant forall i :: 0 <= i < |delays| ==> delays[i] < BaseDelay * Pow2(i)
      decreases MaxTries - attempts
    {
      last := responses[attempts];
      status := last.status;
      if status != StatusOK {
        var delay: nat :| delay < BaseDelay * Pow2(attempts);
        delays := delays + [delay];
      }
      attempts := attempts + 1;
    }
  }

  /** The loop that collects the text of every field of a header tuple. */
  method ReadStrings(t: Tuple) returns (texts: seq<string>)
    ensures texts == FieldTexts(t)
  {
    texts := [];
    var c := 0;
    while c < |t|
      invariant 0 <= c <= |t|
      invariant |texts| == c
      invariant forall j :: 0 <= j < c ==> texts[j] == GetStringValue(Some(t), j).value
    {
      texts := texts + [GetStringValue(Some(t), c).value];
      c := c + 1;
    }
    assert |texts| == |FieldTexts(t)|;
  }

  /** What a lookup does, stated over the folder's dataset, row count and column
      names, the row cache before (row0, chan0) and after (row1, chan1). */
  ghost predicate LookupSpec(ds: Option<Dataset>, n: int, columns: seq<string>,
                             row0: int, chan0: u64, row1: int, chan1: u64,
                             channel: u64, name: string, res: Result<Lookup, FolderError>)
  {
    var hit := row0 != -1 && chan0 == channel && ChannelAt(ds, row0) == channel;
    var missing := res.Err? && res.error.ChannelNotFound?;
    && (res.Err? ==> res.error == ChannelNotFound(channel) || res.error == ColumnNotFound(name))
    // a channel that is not found leaves the cache alone and is absent from sorted data
    && (missing ==>
          && !hit && row1 == row0 && chan1 == chan0
          && (SortedRows(ds, n) ==> forall k :: 0 <= k < n ==> ChannelAt(ds, k) != channel))
    // otherwise the cache points at a row that holds the channel
    && (!missing ==>
          && chan1 == channel && ChannelAt(ds, row1) == channel
          && (hit ==> row1 == row0)
          && (!hit && n >= 1 ==> 0 <= row1 < n)
          && (SortedRows(ds, n) && (!hit || 0 <= row0 < n) ==>
                forall k :: 0 <= k < n && ChannelAt(ds, k) == channel ==> row1 == k))
    && (res.Err? && res.error.ColumnNotFound? ==> NoColumn(columns, name))
    && (res.Ok? ==>
          && res.value.row == row1
          && res.value.tuple == GetTuple(ds, row1 + HeaderRows)
          && IsFirstColumn(columns, name, res.value.column))
  }

  /** The part of a folder's state that a refresh replaces. */
  datatype CacheState = CacheState(dataset: Option<Dataset>, nRows: int,
                                   start: IOVTimeStamp, end: IOVTimeStamp,
                                   columns: seq<string>, types: seq<string>)

  /** What reading the header of ds does: tuple 0 gives the start, tuple 1 the end
      ("-" for open-ended), tuples 2 and 3 the column names and types; the first
      time field that does not parse stops the reading and leaves the later
      fields as they were. */
  ghost predicate HeaderOutcome(ds: Dataset, p: Precision, s0: CacheState, s1: CacheState,
                                res: Result<bool, FolderError>)
    requires |ds.tuples| > HeaderRows
  {
    var start := GetFromString(HeaderText(ds, 0), p);
    && (start.Err? ==> res == Err(TimeStampError(start.error)) && s1 == s0)
    && (start.Ok? ==> TailOutcome(ds, p, s0.(start := start.value), s1, res))
  }

  /** The part of the header after the start time: the end time, then the schema. */
  ghost predicate TailOutcome(ds: Dataset, p: Precision, s0: CacheState, s1: CacheState,
                              res: Result<bool, FolderError>)
    requires |ds.tuples| > HeaderRows
  {
    var end := ParseEndTime(HeaderText(ds, 1), p);
    && (end.Err? ==> res == Err(TimeStampError(end.error)) && s1 == s0)
    && (end.Ok? ==>
          res == Ok(true)
          && s1 == s0.(end := end.value,
                       columns := FieldTexts(ds.tuples[2]), types := FieldTexts(ds.tuples[3])))
  }

  /** What a refresh for time ts does, from state s0 to state s1, when responses[i]
      is the remote answer to attempt i: it stops at the first answer with status
      200 and makes at most MaxTries attempts, waiting less than 5 * 2^i seconds
      after failed attempt i; the last answer becomes the cached dataset. */
  ghost predicate RefreshOutcome(p: Precision, ts: IOVTimeStamp, responses: seq<Dataset>,
                                 s0: CacheState, s1: CacheState,
                                 res: Result<bool, FolderError>, attempts: nat, delays: seq<nat>)
  {
    && 1 <= attempts <= MaxTries && attempts <= |responses|
    && (forall i :: 0 <= i < attempts - 1 ==> responses[i].status != StatusOK)
    && var ds := responses[attempts - 1];
    && (ds.status != StatusOK ==> attempts == MaxTries)
    && |delays| == (if ds.status == StatusOK then attempts - 1 else attempts)
    && (forall i :: 0 <= i < |delays| ==> delays[i] < BaseDelay * Pow2(i))
    && s1.dataset == Some(ds)
    // a failed fetch reports the status and keeps the row count, interval and schema
    && (ds.status != StatusOK ==>
          res == Err(HttpError(ds.status, ds.message)) && s1 == s0.(dataset := s1.dataset))
    // a table without data rows is an error once the row count is set
    && (ds.status == StatusOK && |ds.tuples| - HeaderRows < 1 ==>
          res == Err(DataNotFound(DBStamp(ts, p)))
          && s1 == s0.(dataset := s1.dataset, nRows := |ds.tuples| - HeaderRows))
    // otherwise the header is read
    && (ds.status == StatusOK && |ds.tuples| - HeaderRows >= 1 ==>
          HeaderOutcome(ds, p, s0.(dataset := s1.dataset, nRows := |ds.tuples| - HeaderRows), s1, res))
  }

  class DBFolder {
    var folderName: string
    var url: string
    var tag: string
    /** The last response fetched (none before the first refresh). */
    var cachedDataset: Option<Dataset>
    /** Data rows in the cached table: tuples minus header rows. */
    var nRows: int
    var columns: seq<string>
    var types: seq<string>
    /** The one-row cache: a data row index (-1 when unset) and the channel it held. */
    var cachedRow: int
    var cachedChannel: u64
    var cachedStart: IOVTimeStamp
    var cachedEnd: IOVTimeStamp
    const precision: Precision

    constructor (name: string, url: string, tag: string, precision: Precision)
      requires |url| > 0
      ensures folderName == name && this.url == StripTrailingSlash(url) && this.tag == tag
      ensures this.precision == precision
      ensures cachedDataset == None && nRows == 0 && columns == [] && types == []
      ensures cachedRow == -1 && cachedChannel == 0
      ensures cachedStart == Stamp(0, 0) && cachedEnd == Stamp(0, 0)
      ensures forall t :: !IsValid(t)
    {
      folderName := name;
      this.url := StripTrailingSlash(url);
      this.tag := tag;
      this.precision := precision;
      cachedDataset := None;
      nRows := 0;
      columns, types := [], [];
      cachedRow, cachedChannel := -1, 0;
      cachedStart, cachedEnd := Stamp(0, 0), Stamp(0, 0);
    }

    /** The cached table serves t when t lies in [cachedStart, cachedEnd). */
    predicate IsValid(t: IOVTimeStamp)
      reads this
    {
      LessEq(cachedStart, t) && Less(t, cachedEnd)
    }

    ghost function State(): CacheState
      reads this
    {
      CacheState(cachedDataset, nRows, cachedStart, cachedEnd, columns, types)
    }

    /** Finds the row of a channel (reusing the cached row when it still holds
        the channel) and the index of the named column. */
    method GetTupleColumn(channel: u64, name: string) returns (res: Result<Lookup, FolderError>)
      modifies this`cachedRow, this`cachedChannel
      ensures LookupSpec(cachedDataset, nRows, columns, old(cachedRow), old(cachedChannel),
                         cachedRow, cachedChannel, channel, name, res)
    {
      var row := -1;
      if cachedRow != -1 && cachedChannel == channel {
        if ChannelAt(cachedDataset, cachedRow) == channel {
          row := cachedRow;
        }
      }
      if row == -1 {
        row := SearchRow(cachedDataset, nRows, channel);
        if ChannelAt(cachedDataset, row) != channel {
          return Err(ChannelNotFound(channel));
        }
        cachedChannel, cachedRow := channel, row;
      }
      var c := FindColumn(columns, name);
      if c.None? {
        return Err(ColumnNotFound(name));
      }
      return Ok(Lookup(row, c.value, GetTuple(cachedDataset, row + HeaderRows)));
    }

    /** The integer value of a named column of a channel, with the reader's error code. */
    method GetNamedChannelDataLong(channel: u64, name: string)
      returns (res: Result<Decoded<i64>, FolderError>, lookup: Result<Lookup, FolderError>)
      modifies this`cachedRow, this`cachedChannel
      ensures LookupSpec(cachedDataset, nRows, columns, old(cachedRow), old(cachedChannel),
                         cachedRow, cachedChannel, channel, name, lookup)
      ensures lookup.Err? ==> res == Err(lookup.error)
      ensures lookup.Ok? ==> res == Ok(GetLongValue(lookup.value.tuple, lookup.value.column))
    {
      lookup := GetTupleColumn(channel, name);
      if lookup.Err? {
        return Err(lookup.error), lookup;
      }
      res := Ok(GetLongValue(lookup.value.tuple, lookup.value.column));
    }

    /** The text value of a named column of a channel, with the reader's error code. */
    method GetNamedChannelDataString(channel: u64, name: string)
      returns (res: Result<Decoded<string>, FolderError>, lookup: Result<Lookup, FolderError>)
      modifies this`cachedRow, this`cachedChannel
      ensures LookupSpec(cachedDataset, nRows, columns, old(cachedRow), old(cachedChannel),
                         cachedRow, cachedChannel, channel, name, lookup)
      ensures lookup.Err? ==> res == Err(lookup.error)
      ensures lookup.Ok? ==> res == Ok(GetStringValue(lookup.value.tuple, lookup.value.column))
    {
      lookup := GetTupleColumn(channel, name);
      if lookup.Err? {
        return Err(lookup.error), lookup;
      }
      res := Ok(GetStringValue(lookup.value.tuple, lookup.value.column));
    }

    /** Every channel of the cached table in row order, and the error code of the last read;
        1 when nothing has been fetched. */
    method GetChannelList() returns (channels: seq<u64>, ret: int)
      requires cachedDataset.Some? ==> nRows >= 0
      ensures cachedDataset.None? ==> channels == [] && ret == 1
      ensures cachedDataset.Some? ==>
        && |channels| == nRows
        && (forall i :: 0 <= i < nRows ==> channels[i] == ChannelAt(cachedDataset, i))
        && ret == if nRows == 0 then NoError
                  else GetLongValue(GetTuple(cachedDataset, nRows - 1 + HeaderRows), 0).err
    {
      channels := [];
      if cachedDataset.None? {
        return channels, 1;
      }
      ret := NoError;
      var row := 0;
      while row != nRows
        invariant 0 <= row <= nRows
        invariant |channels| == row
        invariant forall i :: 0 <= i < row ==> channels[i] == ChannelAt(cachedDataset, i)
        invariant ret == if row == 0 then NoError
                         else GetLongValue(GetTuple(cachedDataset, row - 1 + HeaderRows), 0).err
      {
        var d := GetLongValue(GetTuple(cachedDataset, row + HeaderRows), 0);
        channels := channels + [ToUInt64(d.value)];
        ret := d.err;
        row := row + 1;
      }
    }

    /** Refreshes the cached table when the decoded time lies outside the cached
        interval; responses[i] is the remote answer to fetch attempt i. */
    method UpdateData(rawTime: u64, responses: seq<Dataset>)
      returns (res: Result<bool, FolderError>, request: string, attempts: nat, delays: seq<nat>)
      requires |responses| >= MaxTries
      modifies this`cachedDataset, this`nRows, this`cachedStart, this`cachedEnd, this`columns, this`types
      // decoding errors and cache hits change nothing and fetch nothing
      ensures var d := DecodeTimeStamp(rawTime, precision);
        d.Err? ==> res == Err(TimeStampError(d.error)) && attempts == 0 && unchanged(this)
      ensures var d := DecodeTimeStamp(rawTime, precision);
        d.Ok? && old(IsValid(d.value)) ==> res == Ok(false) && attempts == 0 && unchanged(this)
      // otherwise the table for the decoded time is requested and the state refreshed
      ensures var d := DecodeTimeStamp(rawTime, precision);
        d.Ok? && !old(IsValid(d.value)) ==>
          && request == RequestURL(url, folderName, tag, DBStamp(d.value, precision))
          && RefreshOutcome(precision, d.value, responses, old(State()), State(), res, attempts, delays)
    {
      request, attempts, delays := "", 0, [];
      var decoded := DecodeTimeStamp(rawTime, precision);
      if decoded.Err? {
        return Err(TimeStampError(decoded.error)), request, attempts, delays;
      }
      var ts := decoded.value;
      if IsValid(ts) {
        return Ok(false), request, attempts, delays;
      }
      request := RequestURL(url, folderName, tag, DBStamp(ts, precision));
      res, attempts, delays := Refresh(ts, responses);
    }

    /** Fetches the table for ts with retries and replaces the cached table. */
    method Refresh(ts: IOVTimeStamp, responses: seq<Dataset>)
      returns (res: Result<bool, FolderError>, attempts: nat, delays: seq<nat>)
      requires |responses| >= MaxTries
      modifies this`cachedDataset, this`nRows, this`cachedStart, this`cachedEnd, this`columns, this`types
      ensures RefreshOutcome(precision, ts, responses, old(State()), State(), res, attempts, delays)
    {
      ghost var s0 := State();
      var last;
      last, attempts, delays := FetchWithRetry(responses);
      cachedDataset := Some(last);
      if last.status != StatusOK {
        assert State() == s0.(dataset := Some(last));
        res := Err(HttpError(last.status, last.message));
        return;
      }
      nRows := |last.tuples| - HeaderRows;
      if nRows < 1 {
        assert State() == s0.(dataset := Some(last), nRows := nRows);
        res := Err(DataNotFound(DBStamp(ts, precision)));
        return;
      }
      res := LoadHeader(last);
    }

    /** Reads the interval of validity and the schema from the header tuples. */
    method LoadHeader(ds: Dataset) returns (res: Result<bool, FolderError>)
      requires |ds.tuples| > HeaderRows
      modifies this`cachedStart, this`cachedEnd, this`columns, this`types
      ensures HeaderOutcome(ds, precision, old(State()), State(), res)
    {
      var start := GetFromString(HeaderText(ds, 0), precision);
      if start.Err? {
        return Err(TimeStampError(start.error));
      }
      cachedStart := start.value;
      res := LoadTail(ds);
    }

    /** Reads the end of the interval of validity and the schema. */
    method LoadTail(ds: Dataset) returns (res: Result<bool, FolderError>)
      requires |ds.tuples| > HeaderRows
      modifies this`cachedEnd, this`columns, this`types
      ensures TailOutcome(ds, precision, old(State()), State(), res)
    {
      var end := ParseEndTime(HeaderText(ds, 1), precision);
      if end.Err? {
        return Err(TimeStampError(end.error));
      }
      cachedEnd := end.value;
      var names := ReadStrings(ds.tuples[2]);
      var kinds := ReadStrings(ds.tuples[3]);
      columns, types := names, kinds;
      res := Ok(true);
    }
  }
}
