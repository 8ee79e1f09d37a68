# DBFolder and TimeStampDecoder, modelled in Dafny

This project models two parts of the calibration-database client in `lariov`.

- `DBFolder` caches one folder of calibration constants that the web database
  serves as a table. The first four tuples of the table are a header:
  - tuple 0 is the start of the interval of validity;
  - tuple 1 is its end, or `-` when the interval is open-ended;
  - tuple 2 holds the column names;
  - tuple 3 holds the column types.

  Every following tuple is one data row. Its column 0 is the channel number.
  The rows are expected in ascending channel order.
- `UpdateData` turns a raw detector time into a database timestamp.
  - When the timestamp lies inside the cached interval, it does nothing.
  - Otherwise it requests the table for that time. It makes up to seven
    attempts, with a random back-off after each failure.
  - It then reads the new header: the interval and the schema.
- `GetTupleColumn` finds the row of a channel and the index of a named column.
  It first tries a one-row cache of the last channel it found. When that
  misses, it runs a binary search over the data rows.
- The `GetNamedChannelData` wrappers read that field as an integer or as text.
  `GetChannelList` lists the channel column of every data row.
- `TimeStampDecoder::DecodeTimeStamp` accepts a clock value of nanoseconds since
  the epoch, and only when it has exactly 19 decimal digits. It keeps the first
  10 digits as seconds and the next `p` digits as sub-seconds, so the value is
  truncated, never rounded.

The files follow the program's structure:

| file | module | contents |
|---|---|---|
| `results.dfy` | `Results` | `Option` and `Result` |
| `decimal.dfy` | `Decimal` | decimal rendering (`std::to_string`) and reading of digit strings, with the arithmetic facts about them |
| `iov_timestamp.dfy` | `IOVData` | the timestamp value type: ordering, text form, parser, open-end marker |
| `timestamp_decoder.dfy` | `TimeStampDecoder` | `DecodeTimeStamp` and its properties |
| `wda.dfy` | `Wda` | the remote table client's values (dataset, tuple, field) and its field readers |
| `db_folder.dfy` | `WebDBI` | the class `DBFolder` with its lookup, channel list and refresh |
| `folder_properties.dfy` | `FolderProperties` | consequences of the folder's contracts: lookups in concrete sorted tables and retry outcomes |

Where the code behaves in unexpected ways, the model follows the code:

- `UpdateData` does not reset the row cache (`fCachedRow`, `fCachedChannel`)
  when it installs a new table. The model keeps a stale cache. Because
  `GetTupleColumn` re-checks the cached row's channel before trusting it,
  the lookup contract still holds.
- `GetTupleColumn` has no "nothing cached" check. Without a table every read
  fails, the channel found is 0, and a lookup of any channel other than 0 fails
  with "channel not found".
- The fetch assigns each response to `fCachedDataset` before it checks the
  status. After an HTTP failure the failed response is the cached table.
  After an empty table the row count has been updated as well. The model keeps
  both effects.
- Line 195 of `DBFolder.cxx` follows a `throw` and never runs. An empty table
  therefore leaves the cached interval as it was.
- A cached row can be left over from an earlier, larger table. Reading it goes
  past the end of the new table, so column 0 reads as 0. The re-check at
  `DBFolder.cxx:95-101` therefore rejects it for every channel except 0. For
  channel 0 the leftover row is trusted, and the lookup returns a row the table
  does not have.
- When the start field of the header does not parse, the refresh stops there.
  The end and the schema keep their old values. When the end does not parse,
  the new start is already stored.

Inputs from the environment are parameters of the model:

- the remote answers: `responses[i]` answers attempt `i`;
- the random back-off: a delay chosen below the window of that attempt.

`IsValid` and the timestamp type's parser and renderer live in headers and
files that are not part of this model. They are assumed to behave as follows:

- `IsValid`: start ≤ t < end;
- text form: seconds, `.`, then the sub-seconds zero-padded to the precision;
- parser: the fraction is zero-extended or truncated to the precision;
- the maximum timestamp is above every other.

## Model

| member | source | states |
|---|---|---|
| TimeStampDecoder.DecodeTimeStamp | CalibrationDBI/IOVData/TimeStampDecoder.cxx:11-31 | decoding succeeds if and only if the decimal rendering has exactly 19 digits; otherwise the error carries the raw value; a decoded value is a finite timestamp strictly below the maximum |
| TimeStampDecoder.DecodedString | CalibrationDBI/IOVData/TimeStampDecoder.cxx:13-21 | the text handed to the parser is 11 + p characters long: the first ten digits of the rendering, a '.', then the next p digits |
| TimeStampDecoder.DecodedStringParses | CalibrationDBI/IOVData/TimeStampDecoder.cxx:21-24 | parsing that text gives the first ten digits as seconds and the next p digits as sub-seconds |
| TimeStampDecoder.DecodeFields | CalibrationDBI/IOVData/TimeStampDecoder.cxx:13-25 | a 19-digit value decodes to (value of digits 1-10, value of digits 11 to 10 + p) |
| TimeStampDecoder.DecodeAcceptsNineteenDigits | CalibrationDBI/IOVData/TimeStampDecoder.cxx:15-16 | decoding succeeds exactly for 10^18 <= ts < 10^19 |
| TimeStampDecoder.DecodeTruncates | CalibrationDBI/IOVData/TimeStampDecoder.cxx:17-18 | the seconds are ts div 10^9, the sub-seconds are below 10^p, and seconds * 10^p + sub-seconds = ts div 10^(9-p): truncation, never rounding |
| TimeStampDecoder.DecodeCharacterised | CalibrationDBI/IOVData/TimeStampDecoder.cxx:17-25 | any seconds and sub-seconds that satisfy those truncation equations are exactly the decoded value |
| TimeStampDecoder.DigitFields | CalibrationDBI/IOVData/TimeStampDecoder.cxx:18 | the ten-digit field of a 19-digit string is its value div 10^9; seconds and p fraction digits together are its value div 10^(9-p) |
| TimeStampDecoder.PrefixFields | CalibrationDBI/IOVData/TimeStampDecoder.cxx:18-21 | the first 10 + p digits read as seconds * 10^p + fraction |
| TimeStampDecoder.DecodeMonotone | CalibrationDBI/IOVData/TimeStampDecoder.cxx:16-24 | decoding preserves order: for 19-digit a <= b, decode(a) is not later than decode(b) |
| TimeStampDecoder.DecodeExample | CalibrationDBI/IOVData/TimeStampDecoder.cxx:11-25 | 1620000000123456789 at precision 6 decodes to 1620000000.123456 |
| Decimal.Digits | CalibrationDBI/IOVData/TimeStampDecoder.cxx:13 | the rendering of a number is a non-empty digit string |
| Decimal.NineteenDigits | CalibrationDBI/IOVData/TimeStampDecoder.cxx:16 | the rendering has 19 digits if and only if 10^18 <= n < 10^19 |
| Decimal.ValueOfDigits | CalibrationDBI/IOVData/TimeStampDecoder.cxx:13 | reading the rendering of n gives n back |
| IOVData.GetFromString | CalibrationDBI/WebDBI/DBFolder.cxx:203 | a successful parse gives a finite timestamp whose sub-seconds fit in p digits; a failure reports the text that did not parse |
| IOVData.FractionTruncates | CalibrationDBI/WebDBI/DBFolder.cxx:203 | a fraction of at least p digits reads as its value with the extra digits dropped (value div 10^(length-p)), so it is truncated, never rounded |
| IOVData.FractionZeroExtends | CalibrationDBI/WebDBI/DBFolder.cxx:203 | a fraction shorter than p digits reads as its value times 10^(p-length), i.e. it is zero-extended |
| IOVData.FirstDot | CalibrationDBI/WebDBI/DBFolder.cxx:203 | the seconds field ends at the first '.', or at the end of the text when there is none |
| IOVData.ParseFields | CalibrationDBI/WebDBI/DBFolder.cxx:203 | "<digits>.<digits>" parses field by field |
| IOVData.ParseEndTime | CalibrationDBI/WebDBI/DBFolder.cxx:206-213 | the end field gives the maximum if and only if it is exactly "-"; any other text is parsed as a timestamp |
| IOVData.StampRoundTrip | CalibrationDBI/WebDBI/DBFolder.cxx:166 | parsing the canonical text of a finite timestamp whose sub-seconds fit the precision gives the timestamp back |
| IOVData.EndTimeRoundTrip | CalibrationDBI/WebDBI/DBFolder.cxx:206-213 | the canonical text of a finite timestamp is not the marker "-", so reading it as an end field gives the timestamp back |
| IOVData.CanonicalForm | CalibrationDBI/WebDBI/DBFolder.cxx:203 | parse, render, parse again gives the first parse's result |
| IOVData.MaxIsGreatest | CalibrationDBI/WebDBI/DBFolder.cxx:208-210 | the maximum is later than every other timestamp and earlier than none |
| IOVData.TotalOrder | CalibrationDBI/WebDBI/DBFolder.cxx:156 | the timestamp order that `IsValid` compares by is irreflexive, asymmetric, transitive and total |
| Wda.ToUInt64 | CalibrationDBI/WebDBI/DBFolder.cxx:83 | the cast to an unsigned 64-bit value keeps non-negative values and adds 2^64 to negative ones |
| WebDBI.StripTrailingSlash | CalibrationDBI/WebDBI/DBFolder.cxx:25-27 | exactly one trailing '/' is dropped; a URL without one is kept |
| WebDBI.Half | CalibrationDBI/WebDBI/DBFolder.cxx:109 | halving truncates toward zero, for negative sums as well |
| WebDBI.DBFolder.constructor | CalibrationDBI/WebDBI/DBFolder.cxx:19-35 | name, tag and trimmed URL are stored; no table, no rows, no schema, an unset row cache and the interval [0, 0), so that no time is valid |
| WebDBI.SearchRow | CalibrationDBI/WebDBI/DBFolder.cxx:107-122 | with at least one row the row found is in range; with none it is (n-1)/2 truncated; in sorted data a row that holds the channel is the one found |
| WebDBI.FindColumn | CalibrationDBI/WebDBI/DBFolder.cxx:140-145 | the index returned is the first one from 1 on whose name is exactly the given name; none is returned only when no such index exists |
| WebDBI.DBFolder.GetTupleColumn | CalibrationDBI/WebDBI/DBFolder.cxx:90-147 | the lookup either fails with "channel not found" and leaves the cache alone, or caches a row that holds the channel; a still-valid cached row is reused; in sorted data it is the channel's row, and an absent channel is the only "not found"; the column is the first exact match, or "column not found" |
| WebDBI.DBFolder.GetNamedChannelDataLong | CalibrationDBI/WebDBI/DBFolder.cxx:42-50 | the lookup as above, then the integer field at that row and column with the reader's error code |
| WebDBI.DBFolder.GetNamedChannelDataString | CalibrationDBI/WebDBI/DBFolder.cxx:62-72 | the lookup as above, then the text field at that row and column with the reader's error code |
| WebDBI.DBFolder.GetChannelList | CalibrationDBI/WebDBI/DBFolder.cxx:74-87 | with no table the list is empty and the result is 1; otherwise the list holds column 0 of every data row in row order, and the result is the error code of the last read, 0 when there are no rows |
| WebDBI.FetchWithRetry | CalibrationDBI/WebDBI/DBFolder.cxx:170-182 | between 1 and 7 attempts; every attempt but the last failed; the last answer is kept; fewer than 7 attempts only on success; one delay per failed attempt, delay i below 5 * 2^i seconds |
| WebDBI.ReadStrings | CalibrationDBI/WebDBI/DBFolder.cxx:217-223 | the text of every field of the tuple, in order |
| WebDBI.DBFolder.UpdateData | CalibrationDBI/WebDBI/DBFolder.cxx:150-167 | a time that does not decode is an error and a time inside the cached interval returns false; both change nothing and fetch nothing; any other time requests the folder's data at the canonical text of the decoded time and refreshes |
| WebDBI.DBFolder.Refresh | CalibrationDBI/WebDBI/DBFolder.cxx:169-196 | the retry outcome above; the last answer becomes the cached table; a failed status is reported and leaves the rest; an answer without data rows is "data not found" for the time, with the row count set; otherwise the header is read |
| WebDBI.DBFolder.LoadHeader | CalibrationDBI/WebDBI/DBFolder.cxx:198-204 | a start that does not parse is an error and changes nothing; otherwise the start is stored and the rest of the header is read |
| WebDBI.DBFolder.LoadTail | CalibrationDBI/WebDBI/DBFolder.cxx:206-232 | an end that does not parse is an error and changes nothing more; otherwise the end ("-" gives the maximum), the column names and the column types are replaced and the result is true |
| FolderProperties.ChannelTableSorted | CalibrationDBI/WebDBI/DBFolder.cxx:112-113 | a table built from ascending channels has its data rows in ascending channel order |
| FolderProperties.LookupFindsPresent | CalibrationDBI/WebDBI/DBFolder.cxx:95-145 | in sorted data a channel held by row k is found in row k and cached, whatever row the cache held (unset, in the table, or left over past its end for a channel other than 0); the first exact column match is returned with row k's tuple, or the column is reported missing |
| FolderProperties.LookupRejectsAbsent | CalibrationDBI/WebDBI/DBFolder.cxx:95-130 | a channel no row holds is "not found" and the cache is left alone, whatever row the cache held (for a leftover row past the table, for a channel other than 0) |
| FolderProperties.LeftoverRowHitsChannelZero | CalibrationDBI/WebDBI/DBFolder.cxx:95-99 | a leftover cached row past the end of the table passes the re-check for channel 0, and the lookup keeps that row |
| FolderProperties.LookupFindsChannel | CalibrationDBI/WebDBI/DBFolder.cxx:90-147 | channel 30 in [10, 20, 30, 40, 50] is row 2, column "status" is 1, and the tuple is (30, 0), whatever row the cache held before |
| FolderProperties.LookupRejectsAbsentChannel | CalibrationDBI/WebDBI/DBFolder.cxx:124-130 | channel 25 in [10, 20, 30] is "not found" and the cache is left alone, whatever it held |
| FolderProperties.LookupColumnIsCaseSensitive | CalibrationDBI/WebDBI/DBFolder.cxx:140-145 | "Status" does not match the column "status": the row is found and cached, and the column is "not found" |
| FolderProperties.RetriesExhausted | CalibrationDBI/WebDBI/DBFolder.cxx:174-187 | when every answer fails, exactly seven attempts and seven delays are made, and the seventh status and message are reported |
| FolderProperties.RetrySucceedsSecond | CalibrationDBI/WebDBI/DBFolder.cxx:174-182 | failure then success takes two attempts and one delay below five seconds, and the second answer is cached |
| FolderProperties.RetryWaitBound | CalibrationDBI/WebDBI/DBFolder.cxx:178-179 | the delays of one refresh add up to at most 628 seconds |

## Left out

- File and network access in `getData`, `getHTTPstatus` and `getHTTPmessage` become the `responses` sequence. The `wda` library is not part of this model. Its readers are assumed to return 0 or "" with a nonzero error code for a missing tuple, a missing field or a field of the other kind.
- `releaseTuple`, `releaseDataset` and the destructor are left out, because Dafny values need no freeing.
- `srandom`, `random` and `sleep` are left out. Each delay is any value below its window, and no time passes.
- The `double` overload of `GetNamedChannelData` (DBFolder.cxx:52-60) is left out, because floating point is not modelled.
- `kBUFFER_SIZE` is left out: field texts are not truncated to the buffer size.
- The text of error messages is left out. Errors are datatype values that carry their data: the status and message, the time, the channel, the column name. This includes the message at TimeStampDecoder.cxx:28, where `" ... " + ts` adds the number to a string-literal pointer rather than appending it.
- The error code `err` that `UpdateData` passes to the readers is never used by the source, so it is not modelled.
- The sub-second precision, a compile-time constant in the source, is a parameter `p` (0 to 9) set when a folder is created.
- `IOVTimeStamp` and `DBFolder.h` are not part of this model. The order, the text form, the parser and `IsValid` are the assumed behaviour described above.
- IOVData.DBStamp: the text of the maximum timestamp is the model's own choice, the open-end marker "-". The core only renders decoded times, which are never the maximum, and only reads the marker (DBFolder.cxx:208).
- Concurrent use of one folder is left out. The model treats each call as a single step.
- WebDBI.DBFolder.GetChannelList: requires a non-negative row count when a table is held. The source loop `row != fNRows` does not terminate for a negative count, which an answer with fewer than four tuples would give.
- WebDBI.DBFolder.constructor: requires a non-empty URL, because the source reads the URL's last character.
- WebDBI.SearchRow: `l + h` is computed without the 32-bit `int` bound. The sum can only overflow for tables of more than 2^30 rows.
- WebDBI.DBFolder.UpdateData: requires at least seven remote answers, one for each possible attempt. This is a property of the environment's model, not a demand of the source.
- WebDBI.FetchWithRetry: does not model the actual `random()` sequence seeded from the process ids. Its delays are only bounded.
