/** Consequences of the folder's contracts: lookups in a small sorted table and
    the retry loop's outcome for given sequences of remote answers. */
module FolderProperties {
  import opened Results
  import opened Decimal
  import opened IOVData
  import opened Wda
  import opened WebDBI

  /** A table as the service sends it: four header tuples, then one
      (channel, status) tuple per channel. */
  function ChannelTable(channels: seq<i64>): (ds: Dataset)
    ensures |ds.tuples| == HeaderRows + |channels|
  {
    Dataset(StatusOK, "",
      [[Str("1620000000.000000")], [Str("-")], [Str("channel"), Str("status")], [Str("bigint"), Str("integer")]]
      + seq(|channels|, i requires 0 <= i < |channels| => [Int(channels[i]), Int(0)]))
  }

  const Schema: seq<string> := ["channel", "status"]

  /** Reading column 0 of the table gives the channels in order; past the end it reads 0. */
  lemma ChannelTableRows(channels: seq<i64>, row: int)
    requires Ascending(channels)
    ensures ChannelAt(Some(ChannelTable(channels)), row) == if 0 <= row < |channels| then channels[row] else 0
  {
    var ds := ChannelTable(channels);
    if 0 <= row < |channels| {
      if row > 0 {
        AscendingPairs(channels, 0, row);
      }
      assert ds.tuples[row + HeaderRows] == [Int(channels[row]), Int(0)];
    } else if 0 <= row + HeaderRows < |ds.tuples| {
      assert ds.tuples[row + HeaderRows][0].Str?;
    }
  }

  /** Non-negative channels, each below the next. */
  predicate Ascending(channels: seq<i64>)
  {
    && (|channels| > 0 ==> channels[0] >= 0)
    && forall i :: 0 <= i < |channels| - 1 ==> channels[i] < channels[i + 1]
  }

  lemma {:induction false} AscendingPairs(channels: seq<i64>, i: int, j: int)
    requires Ascending(channels) && 0 <= i < j < |channels|
    ensures 0 <= channels[i] < channels[j]
    decreases j
  {
    if i < j - 1 {
      AscendingPairs(channels, i, j - 1);
    } else if i > 0 {
      AscendingPairs(channels, 0, i);
    }
  }

  lemma ChannelTableSorted(channels: seq<i64>)
    requires Ascending(channels)
    ensures SortedRows(Some(ChannelTable(channels)), |channels|)
  {
    forall i, j | 0 <= i < j < |channels|
      ensures ChannelAt(Some(ChannelTable(channels)), i) < ChannelAt(Some(ChannelTable(channels)), j)
    {
      AscendingPairs(channels, i, j);
      ChannelTableRows(channels, i);
      ChannelTableRows(channels, j);
    }
  }

  /** The row cache a lookup can meet: unset, a row of the current table, or a row
      left over from an earlier, larger table.  A leftover row reads past the end
      of the table, where column 0 reads as 0, so it can only be trusted for
      channel 0; this holds for any other channel. */
  ghost predicate CacheTrustable(ds: Option<Dataset>, n: int, row0: int, channel: u64)
  {
    row0 >= -1 && (row0 >= n ==> ds.Some? && |ds.value.tuples| == n + HeaderRows && channel != 0)
  }

  /** In a sorted table a channel held by row k is found in row k and cached, whatever
      row the cache held before; then the first column carrying the name is returned
      with the row's tuple, or the column is reported missing. */
  lemma LookupFindsPresent(ds: Option<Dataset>, n: int, columns: seq<string>,
                           row0: int, chan0: u64, row1: int, chan1: u64,
                           channel: u64, name: string, res: Result<Lookup, FolderError>, k: int)
    requires SortedRows(ds, n) && 0 <= k < n && ChannelAt(ds, k) == channel
    requires CacheTrustable(ds, n, row0, channel)
    requires LookupSpec(ds, n, columns, row0, chan0, row1, chan1, channel, name, res)
    ensures row1 == k && chan1 == channel
    ensures forall c :: IsFirstColumn(columns, name, c) ==> res == Ok(Lookup(k, c, GetTuple(ds, k + HeaderRows)))
    ensures NoColumn(columns, name) ==> res == Err(ColumnNotFound(name))
  {
    assert row0 >= n ==> ChannelAt(ds, row0) == 0;
    assert !(res.Err? && res.error.ChannelNotFound?);
  }

  /** A channel that no row of the table holds is not found, and the cache is left
      alone, whatever row the cache held before. */
  lemma LookupRejectsAbsent(ds: Option<Dataset>, n: int, columns: seq<string>,
                            row0: int, chan0: u64, row1: int, chan1: u64,
                            channel: u64, name: string, res: Result<Lookup, FolderError>)
    requires n >= 1 && forall k :: 0 <= k < n ==> ChannelAt(ds, k) != channel
    requires CacheTrustable(ds, n, row0, channel)
    requires LookupSpec(ds, n, columns, row0, chan0, row1, chan1, channel, name, res)
    ensures res == Err(ChannelNotFound(channel))
    ensures row1 == row0 && chan1 == chan0
  {
    assert row0 >= n ==> ChannelAt(ds, row0) == 0;
  }

  /** A leftover cached row is trusted for channel 0: in a table without channel 0
      a lookup of channel 0 through a row past the table succeeds with that row. */
  lemma LeftoverRowHitsChannelZero(ds: Option<Dataset>, n: int, columns: seq<string>,
                                   row0: int, row1: int, chan1: u64, name: string,
                                   res: Result<Lookup, FolderError>)
    requires ds.Some? && |ds.value.tuples| == n + HeaderRows && 0 <= n <= row0
    requires LookupSpec(ds, n, columns, row0, 0, row1, chan1, 0, name, res)
    ensures !(res.Err? && res.error.ChannelNotFound?)
    ensures row1 == row0 && chan1 == 0
  {
    assert ChannelAt(ds, row0) == 0;
  }

  /** Channel 30 of [10, 20, 30, 40, 50] is found in row 2 and becomes the cached channel,
      whatever row the cache held before. */
  lemma LookupFindsChannel(row0: int, chan0: u64, row1: int, chan1: u64, res: Result<Lookup, FolderError>)
    requires row0 >= -1
    requires LookupSpec(Some(ChannelTable([10, 20, 30, 40, 50])), 5, Schema, row0, chan0, row1, chan1, 30, "status", res)
    ensures row1 == 2 && chan1 == 30
    ensures res == Ok(Lookup(2, 1, Some([Int(30), Int(0)])))
  {
    var cs: seq<i64> := [10, 20, 30, 40, 50];
    var ds := Some(ChannelTable(cs));
    ChannelTableSorted(cs);
    ChannelTableRows(cs, 2);
    assert IsFirstColumn(Schema, "status", 1);
    LookupFindsPresent(ds, 5, Schema, row0, chan0, row1, chan1, 30, "status", res, 2);
    assert ds.value.tuples[6] == [Int(30), Int(0)];
  }

  /** Channel 25 is not in [10, 20, 30]: the lookup fails and the cache is left alone. */
  lemma LookupRejectsAbsentChannel(row0: int, chan0: u64, row1: int, chan1: u64, name: string,
                                   res: Result<Lookup, FolderError>)
    requires LookupSpec(Some(ChannelTable([10, 20, 30])), 3, Schema, row0, chan0, row1, chan1, 25, name, res)
    ensures res == Err(ChannelNotFound(25))
    ensures row1 == row0 && chan1 == chan0
  {
    ChannelTableRows([10, 20, 30], row1);
  }

  /** Column names match exactly: "Status" is not "status". */
  lemma LookupColumnIsCaseSensitive(row1: int, chan1: u64, res: Result<Lookup, FolderError>)
    requires LookupSpec(Some(ChannelTable([10, 20, 30])), 3, Schema, -1, 0, row1, chan1, 20, "Status", res)
    ensures res == Err(ColumnNotFound("Status"))
    ensures row1 == 1 && chan1 == 20
  {
    var cs: seq<i64> := [10, 20, 30];
    ChannelTableSorted(cs);
    ChannelTableRows(cs, 1);
    assert NoColumn(Schema, "Status") by { assert Schema[1] != "Status"; }
    LookupFindsPresent(Some(ChannelTable(cs)), 3, Schema, -1, 0, row1, chan1, 20, "Status", res, 1);
  }

  /** When the remote service fails on every attempt, exactly seven attempts are
      made, seven delays are waited, and the last status is reported. */
  lemma RetriesExhausted(p: Precision, ts: IOVTimeStamp, responses: seq<Dataset>,
                         s0: CacheState, s1: CacheState,
                         res: Result<bool, FolderError>, attempts: nat, delays: seq<nat>)
    requires |responses| >= MaxTries
    requires forall i :: 0 <= i < MaxTries ==> responses[i].status != StatusOK
    requires RefreshOutcome(p, ts, responses, s0, s1, res, attempts, delays)
    ensures attempts == MaxTries && |delays| == MaxTries
    ensures res == Err(HttpError(responses[6].status, responses[6].message))
    ensures s1 == s0.(dataset := Some(responses[6]))
  {
  }

  /** A failure followed by a success takes two attempts and one delay of less than five seconds. */
  lemma RetrySucceedsSecond(p: Precision, ts: IOVTimeStamp, responses: seq<Dataset>,
                            s0: CacheState, s1: CacheState,
                            res: Result<bool, FolderError>, attempts: nat, delays: seq<nat>)
    requires |responses| >= MaxTries
    requires responses[0].status != StatusOK && responses[1].status == StatusOK
    requires RefreshOutcome(p, ts, responses, s0, s1, res, attempts, delays)
    ensures attempts == 2 && |delays| == 1 && delays[0] < 5
    ensures s1.dataset == Some(responses[1])
  {
    assert !(attempts > 2);
  }

  /** The longest total wait: the windows 5, 10, ..., 320 seconds sum to 635, and
      the delays, each one below its window, to at most 628. */
  lemma RetryWaitBound(delays: seq<nat>)
    requires |delays| <= MaxTries
    requires forall i :: 0 <= i < |delays| ==> delays[i] < BaseDelay * Pow2(i)
    ensures Sum(delays) <= 628
  {
    SumBound(delays, |delays|);
    WindowTotal();
    assert WindowSum(|delays|) <= WindowSum(7) by {
      WindowSumMono(|delays|, 7);
    }
  }

  function Sum(s: seq<nat>): nat
  {
    if s == [] then 0 else Sum(s[..|s| - 1]) + s[|s| - 1]
  }

  /** Sum of the largest possible delays of the first k windows. */
  function WindowSum(k: nat): int
  {
    if k == 0 then 0 else WindowSum(k - 1) + BaseDelay * Pow2(k - 1) - 1
  }

  lemma {:induction false} SumBound(delays: seq<nat>, k: nat)
    requires k == |delays|
    requires forall i :: 0 <= i < |delays| ==> delays[i] < BaseDelay * Pow2(i)
    ensures Sum(delays) <= WindowSum(k)
  {
    if k > 0 {
      SumBound(delays[..k - 1], k - 1);
    }
  }

  lemma {:induction false} WindowSumMono(i: nat, j: nat)
    requires i <= j
    ensures WindowSum(i) <= WindowSum(j)
    decreases j
  {
    if i < j {
      WindowSumMono(i, j - 1);
    }
  }

  lemma WindowTotal()
    ensures WindowSum(7) == 628
  {
    assert Pow2(6) == 64 by {
      assert Pow2(3) == 8;
    }
  }
}
