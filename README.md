# etcd fault-injection workload: operation log and validators in Dafny

This project models the etcd test workload's client side. It covers the traffic drivers, which send puts and gets to an etcd cluster and record what happened. It also covers the validators, which read the record back or query the cluster and check that it kept what it acknowledged. Each part of the workload is one module:

- **Text** (`text.dfy`): the library behaviour the workload depends on.
  - Go's `strings.Split` and a `bufio.Scanner` reading lines.
  - `strconv.Atoi` and `strconv.ParseInt` with their 64-bit range.
  - Python's `str(int)`, `int(str)`, `','.join`, `readline().strip()`.
  - The byte order `sort.Strings` uses.
- **KvModel** (`kv_model.dfy`): the single-key register `kvModel` that both Go validators hand to the linearizability checker.
  - `Init` and `Step`.
  - `Partition` and `PartitionEvent`.
  - A reference register semantics that `Step` is proved against.
- **LogReader** (`log_reader.dfy`): the Go validators.
  - Parsing each line of the operations log and splitting operations into successful and failed, in file order.
  - `OrganizeOperations`, `Validate` (cap of 19 failed operations, subset search), `StartValidate`.
  - The workload validator's `Validate`.
  - The checker `porcupine.CheckOperations(kvModel, ·)` is a parameter `check`.
  - `combinations.All` is the list of non-empty subsets, enumerated by bit mask.
- **LocalFileHelper** (`local_file_helper.dfy`): the counter file and the operations log as a class with two fields. Each method is one critical section under its file lock, so it runs as one step.
  - `generate_traffic_id` reads the counter file, extends it and rewrites it.
  - `write_operations` appends lines to the log.
- **Request** (`request.dfy`) and **Helper** (`helper.dfy`): the call wrappers.
  - They turn a store call that returns or raises into the tuples the drivers use.
  - They keep "key absent" apart from "could not ask".
  - They also cover the request counts and the 8-character alphanumeric values.
- **TrafficLog** (`traffic_log.dfy`): the parallel traffic driver.
  - `format_operation`, `execute_requests`, `simulate_traffic`.
  - It is proved that every line it logs reads back through the Go parser as the operation it recorded.
- **LeasedTraffic** (`leased_traffic.dfy`): the lease driver.
  - The puts, `validate_puts`, the revocation, and the checks on leased and unleased keys.
  - The cluster is a class holding the store and the set of keys attached to the session lease. Revoking the lease deletes that set.
- **PlainTraffic** (`plain_traffic.dfy`): the plain put driver and its `validate_puts`.
- **DeleteKeys** (`delete_keys.dfy`): the Go driver that lists every key, deletes the first half, and asserts that each deleted key reads back with count 0.

Inputs the model takes instead of computing them:

- **Randomness** becomes draws: `random_choice(list)` is `list[draw % |list|]` and `get_random()` is a natural number.
- **The monotonic clock** is a function from reading number to nanoseconds; request `i` reads it at `2i` and `2i + 1`.
- **Each store call** is given as its outcome (`Returned(value)` or `Raised(message)`).
- **The log and counter files** are strings, and a missing file is `None`.

Two details of the counter file follow the code exactly:

- `generate_traffic_id` opens the counter file for reading, so a missing file raises and the driver dies. It does not count from 0.
- The new id is the last listed id plus one. It is not the largest listed id plus one.

## Model

| member | source | states |
|---|---|---|
| KvModel.Init | workload/main/serial_driver_validate_operations.go:64-68 | the register starts as the empty string |
| KvModel.Step | workload/main/serial_driver_validate_operations.go:69-83 | a get is accepted iff its output equals the state, which it leaves unchanged; a put is always accepted and its value becomes the state; any other op is accepted and appends its value; the test template's step (test-template/main/serial_driver_validate_operations.go:71-85) is identical |
| KvModel.ReplayIsRegister | workload/main/serial_driver_validate_operations.go:69-83 | stepping a put/get history accepts it iff every get read the value of the latest put before it (or the start state), and ends in the latest put's value |
| KvModel.Partition | workload/main/serial_driver_validate_operations.go:28-44 | one non-empty group per key touched; each group is exactly that key's operations in history order; groups come in strictly ascending key order; the test template's Partition (test-template/main/serial_driver_validate_operations.go:30-46) is identical |
| KvModel.GroupByKey | workload/main/serial_driver_validate_operations.go:29-33 | the grouping map has exactly the keys of the history, each holding that key's operations in history order |
| KvModel.SortedKeys | workload/main/serial_driver_validate_operations.go:34-38 | the keys of a set listed once each, in strictly ascending order |
| KvModel.PartitionPlacesOnce | workload/main/serial_driver_validate_operations.go:28-44 | every operation of the history lies in exactly one group |
| KvModel.PartitionIsPermutation | workload/main/serial_driver_validate_operations.go:28-44 | the groups laid end to end are a permutation of the history |
| KvModel.OnKeyKeepsOrder | workload/main/serial_driver_validate_operations.go:30-33 | a key's group is a subsequence of the history |
| KvModel.PartitionEvent | workload/main/serial_driver_validate_operations.go:45-63 | one group per distinct key an event is filed under, holding exactly the events filed under it, in history order |
| KvModel.FileEvents | workload/main/serial_driver_validate_operations.go:46-57 | the map built by the filing loop has one entry per key an event is filed under, holding exactly the events filed under that key, in history order |
| KvModel.ListGroups | workload/main/serial_driver_validate_operations.go:58-62 | the map's groups listed once per key, in some order of the distinct keys |
| KvModel.ReturnFiledWithItsCall | workload/main/serial_driver_validate_operations.go:48-56 | a return event goes into the same group as the latest call event with its id |
| KvModel.MatchesLatestCall | workload/main/serial_driver_validate_operations.go:47-52 | the id-to-key table holds the key of the latest call with that id |
| KvModel.OrphanReturnFiledUnderEmptyKey | workload/main/serial_driver_validate_operations.go:53-55 | a return whose id no earlier call carried is filed under "" (the map's zero value) |
| Text.LessTotal | workload/main/serial_driver_validate_operations.go:38 | the byte order used to sort keys is total on distinct strings (with LessIrreflexive and LessTransitive, a strict order) |
| Text.Split | workload/main/serial_driver_validate_operations.go:119 | strings.Split gives at least one piece, no piece holds the separator, and joining the pieces gives the line back |
| Text.SplitJoin | workload/resources/local_file_helper.py:11 | splitting a join of separator-free pieces gives the pieces back |
| Text.Lines | workload/main/serial_driver_validate_operations.go:112-116 | the scanner yields no line for an empty file and one line for text without a newline (a final carriage return dropped); no line it yields holds a newline |
| Text.LinesAfterAppend | workload/main/serial_driver_validate_operations.go:112-116 | the scanner reads a text that ends a line, followed by newline-terminated lines without newlines, as the old lines followed by the new ones |
| Text.Atoi | workload/main/serial_driver_validate_operations.go:121-124 | Atoi succeeds exactly on decimal text within the 64-bit range, with that value |
| Text.ParseInt64 | workload/main/serial_driver_validate_operations.go:146-147 | ParseInt gives the value on in-range decimal text, 0 on a syntax error, the nearest 64-bit bound on out-of-range text, and always stays in the 64-bit range |
| Text.PyInt | workload/resources/local_file_helper.py:11 | int() of text without whitespace is its decimal value (None when it is not decimal), and int() of blank text fails |
| Text.IntToString | workload/resources/local_file_helper.py:18 | str(n) is decimal text (an optional leading minus, then digits) that parses back to n |
| Text.Strip | workload/resources/local_file_helper.py:8 | strip returns a slice of the text with no whitespace at either end, and everything it cut off before and after the slice is whitespace |
| Text.ReadLine | workload/resources/local_file_helper.py:8 | readline returns a prefix of the file: the whole text when it has no newline, otherwise up to and including the first newline (a `\r` does not end the line; see "Left out") |
| LogReader.ParseLine | workload/main/serial_driver_validate_operations.go:119-143 | fewer than eight fields panics (None); field 1 "put" gives op 1 with key field 4 and value field 5, anything else op 0 with no value; "None" reads as ""; the entry is failed iff field 7 is "False"; call and return times are ParseInt of fields 2 and 3; the client is Atoi of field 0, or 0 when that is not an integer |
| LogReader.NoParseAfterPanic | workload/main/serial_driver_validate_operations.go:116-125 | once a line panics the reader, the whole log yields no verdict |
| LogReader.ScanLog | workload/main/serial_driver_validate_operations.go:116-158 | the scan loop builds exactly the successful and the failed operations of the parsed log, each in file order, or stops at a panicking line |
| LogReader.OrganizeOperations | test-template/main/serial_driver_validate_operations.go:102-170 | nil for a missing file or when no operation succeeded; otherwise exactly [successful, failed], split on field 7 in file order |
| LogReader.AllSubsets | test-template/main/serial_driver_validate_operations.go:200 | there are 2^n - 1 candidate subsets of n failed operations |
| LogReader.SubsetOfAllBits | test-template/main/serial_driver_validate_operations.go:200 | the last candidate is the whole list of failed operations |
| LogReader.SubsetNonEmpty | test-template/main/serial_driver_validate_operations.go:200 | no candidate subset is empty |
| LogReader.Validate | test-template/main/serial_driver_validate_operations.go:172-217 | (true, nil) when the successful operations pass; else an error when more than 19 failed; else true iff some non-empty subset of failed operations appended to the successful ones passes |
| LogReader.AllFailedPassingSuffices | test-template/main/serial_driver_validate_operations.go:200-212 | if all failed operations together make the history pass, the search succeeds |
| LogReader.StartValidate | test-template/main/serial_driver_validate_operations.go:219-238 | the always-linearizable assertion is raised iff some operation succeeded and Validate returned no error, and then it asserts Validate's verdict |
| LogReader.SearchFailed | workload/main/serial_driver_validate_operations.go:181-199 | reports the first subset in enumeration order that makes the history pass, and "not linearizable" iff none does |
| LogReader.WorkloadValidate | workload/main/serial_driver_validate_operations.go:100-199 | no verdict without a log or without a successful operation; linearizable iff the successful operations pass; otherwise the subset search's result |
| LocalFileHelper.ParseIds | workload/resources/local_file_helper.py:11 | the conversion succeeds iff every piece is an integer for int(); then it has one id per piece, each int() of its piece |
| LocalFileHelper.ParseShownIds | workload/resources/local_file_helper.py:11 | int applied to each str(id) gives the ids back |
| LocalFileHelper.ListedIdsRoundTrip | workload/resources/local_file_helper.py:8-18 | the counter text written for a list of ids reads back as that list |
| LocalFileHelper.NextId | workload/resources/local_file_helper.py:10-15 | the new id is 1 for an empty line, otherwise exactly the last listed id plus one |
| LocalFileHelper.ListedIds | workload/resources/local_file_helper.py:7-15 | the stripped first line gives no ids when it is empty; otherwise it is split on commas, and the ids exist iff every piece is an integer, one id per piece, each int() of its piece |
| LocalFileHelper.NextCounter | workload/resources/local_file_helper.py:7-18 | generate_traffic_id has a next id and counter text exactly when the counter file exists and its first line lists integers |
| LocalFileHelper.NextCounterLists | workload/resources/local_file_helper.py:7-18 | the new id is NextId of the listed ids, and the rewritten text lists the old ids followed by the new one |
| LocalFileHelper.IdsTextShape | workload/resources/local_file_helper.py:18 | the text written for a non-empty list is one non-empty line without spaces whose comma-separated pieces are str of each id |
| LocalFileHelper.TrafficFiles.GenerateTrafficId | workload/resources/local_file_helper.py:3-20 | a missing or malformed counter file raises and changes nothing; otherwise it returns the next id and rewrites the counter file with the next counter text, both as NextCounter gives them; only the counter file is written |
| LocalFileHelper.TrafficFiles.WriteOperations | workload/resources/local_file_helper.py:22-28 | the log becomes its old content followed by each operation and a newline, in order; the counter is untouched |
| LocalFileHelper.IdsFromEmptyCounter | workload/resources/local_file_helper.py:3-20 | n calls in a row on an empty counter file return 1, 2, ..., n |
| Request.TimedRequest | workload/resources/request.py:4-22 | put_request and get_request alike: start is clock reading `tick`, end reading `tick + 1`; (True, start, end, response, None) iff the call returns, (False, start, end, None, e) otherwise |
| Request.RequestEndsAfterStart | workload/resources/request.py:5-11 | under a monotone clock, end >= start on both paths |
| Request.Truncate | workload/resources/request.py:25 | int() on a float truncates toward zero |
| Request.RequestCount | workload/resources/request.py:25-26 | the count is max(int(sample), 1): at least 1, and the truncated sample when that is at least 1 |
| Request.GenerateRequests | workload/resources/request.py:24-29 | IndexError for an empty table; otherwise RequestCount(sample) requests, each a key of the table |
| Helper.Lookup | test-template/python-generate-traffic/resources/helper.py:26-30 | a get that reaches the store has a value iff the key is present, and then it is the stored one |
| Helper.PutRequest | test-template/python-generate-traffic/resources/helper.py:15-20 | (True, None) iff the put returns, (False, str(e)) otherwise |
| Helper.GetRequest | test-template/python-generate-traffic/resources/helper.py:24-36 | success iff the call returns; then the value is the stored value or None; on an exception (False, message, None) |
| Helper.AbsentKeyIsSuccess | test-template/python-generate-traffic/resources/helper.py:28-31 | an absent key is a success with no value, never the same as an unreachable store |
| Helper.GenerateRequests | test-template/python-generate-traffic/resources/helper.py:38-39 | the count is within 1..100 |
| Helper.EveryCountReachable | test-template/python-generate-traffic/resources/helper.py:38-39 | every count from 1 to 100 occurs |
| Helper.AlphanumericAlphabet | test-template/python-generate-traffic/resources/helper.py:44 | the alphabet has 62 entries: exactly the ASCII letters and digits |
| Helper.RandomValue | test-template/python-generate-traffic/resources/helper.py:41-45 | eight characters, each a letter or digit |
| Helper.GenerateRandomString | test-template/python-generate-traffic/resources/helper.py:41-45 | the loop picks draw i's character for position i; eight letters or digits |
| Helper.FirstFalse | test-template/python-generate-traffic/parallel_driver_generate_leased_traffic.py:69-82 | the position where a validator stopping at the first violation stops: all checks before it hold, and the one at it fails |
| TrafficLog.Fields | test-template/main/parallel_driver_generate_traffic.py:45-46 | format_operation writes exactly nine fields |
| TrafficLog.FormatOperation | test-template/main/parallel_driver_generate_traffic.py:45-48 | the line of a record with plain fields splits on commas into exactly its nine fields (id, type, start, end, key, value, response, success, revision), and holds no newline and no final carriage return |
| TrafficLog.PutRevision | test-template/main/parallel_driver_generate_traffic.py:64 | the put revision text is "{Put_Revision:", then decimal text that parses back to the revision, then "}" |
| TrafficLog.GetRevision | test-template/main/parallel_driver_generate_traffic.py:81-85 | the get revision text starts with "{Get_Revision:" followed by the header revision, or None when the answer had no metadata, then ";", and ends with "}" |
| TrafficLog.GetRevisionReadsBack | test-template/main/parallel_driver_generate_traffic.py:81-85 | splitting the text between "{Get_Revision:" and the closing brace on ";" gives exactly four entries: the header revision, then Key_Created, Key_Modified and Key_Version with the create revision, mod revision and version, each parsing back to its number, or each "None" when the answer had no metadata |
| TrafficLog.RecordedValue | test-template/main/parallel_driver_generate_traffic.py:80 | the recorded response is None iff the answer had no value or an empty one; otherwise it is the answer's value |
| TrafficLog.FormatParseRoundTrip | test-template/main/parallel_driver_generate_traffic.py:45-46 | the Go reader parses a formatted record back to its id, kind, key, value, response, times and success flag |
| TrafficLog.AbsentGetReadsAsInit | test-template/main/parallel_driver_generate_traffic.py:79-86 | a get whose store answer has no value is recorded, and its line reads back through the Go parser as a successful get whose output is the register's initial value |
| TrafficLog.GenerateRandomValue | test-template/main/parallel_driver_generate_traffic.py:37-42 | the same eight-character draw as the helpers' generate_random_string |
| TrafficLog.PutRecord | test-template/main/parallel_driver_generate_traffic.py:54-69 | a put records the traffic id, a key from KEYS, the random value, no response and the clock readings around the call; it is successful iff the put returned, with revision {Put_Revision:r} of the returned revision, and None otherwise |
| TrafficLog.GetRecord | test-template/main/parallel_driver_generate_traffic.py:72-89 | a get is recorded iff it returned; the record is successful, has no value, carries the Get_Revision text of the answer's metadata, and its response is None iff the answer had no value or an empty one, else the answer's value |
| TrafficLog.RecordOf | test-template/main/parallel_driver_generate_traffic.py:53-92 | a request leaves a record iff it is a put or a get that returned, and the record has the request's type; an unknown type leaves none |
| TrafficLog.ExecuteRequest | test-template/main/parallel_driver_generate_traffic.py:53-92 | every put is recorded, successful iff it returned and then with {Put_Revision:r}; a get is recorded iff it returned, with response None iff the store had no value (or an empty one), else the store's value; an unknown type is never recorded |
| TrafficLog.RecordsCount | test-template/main/parallel_driver_generate_traffic.py:50-94 | the number of records is the number of puts plus the number of successful gets |
| TrafficLog.RecordsShape | test-template/main/parallel_driver_generate_traffic.py:53-89 | each record carries the traffic id and a key from KEYS; a put carries an 8-character value and a revision iff it succeeded; a get is successful, has no value and a revision |
| TrafficLog.RecordsArePlain | test-template/main/parallel_driver_generate_traffic.py:53-89 | with driver-written values and an in-range clock, every record's fields are free of commas and line breaks |
| TrafficLog.RecordsReadBack | test-template/main/parallel_driver_generate_traffic.py:50-94 | every line a run logs parses back, through the Go reader, to the operation it recorded |
| TrafficLog.ExecuteRequests | test-template/main/parallel_driver_generate_traffic.py:50-96 | the log gains exactly the formatted records, in request order, in one write at the end; the counter is untouched |
| TrafficLog.LogReadsBackAfterRun | test-template/main/parallel_driver_generate_traffic.py:94 | after the append, the scanner reads the old lines followed by exactly the run's lines |
| TrafficLog.RunWithId | test-template/main/parallel_driver_generate_traffic.py:101-111 | after the id is taken: nothing is logged when the client cannot connect; otherwise RequestCount(sample) put/get requests run and their records are appended to the log; the counter is untouched |
| TrafficLog.SimulateTraffic | test-template/main/parallel_driver_generate_traffic.py:99-111 | a bad counter file crashes the run before anything changes; otherwise the run takes the next traffic id; nothing is logged when the client cannot connect; otherwise RequestCount(sample) put/get requests run and are logged |
| LeasedTraffic.UsesLease | test-template/python-generate-traffic/parallel_driver_generate_leased_traffic.py:42 | bool(generate_requests() % 2) attaches the lease exactly when the draw is even, since the count is draw % 100 + 1 |
| LeasedTraffic.LeaseCoinTakesBothValues | test-template/python-generate-traffic/parallel_driver_generate_leased_traffic.py:42 | the lease coin comes out both ways |
| LeasedTraffic.SuccessfulPutsAreAttempts | test-template/python-generate-traffic/parallel_driver_generate_leased_traffic.py:35-52 | kvs holds no more entries than attempts, each the key, value and lease flag of an attempt whose put returned |
| LeasedTraffic.AppliedPutsStay | test-template/python-generate-traffic/parallel_driver_generate_leased_traffic.py:45-52 | with distinct keys, each recorded key holds its value afterwards and is on the lease iff it was put with it |
| LeasedTraffic.Cluster.GrantLease | test-template/python-generate-traffic/parallel_driver_generate_leased_traffic.py:32 | a fresh lease has no keys; the store is unchanged |
| LeasedTraffic.Cluster.ApplyPut | test-template/python-generate-traffic/parallel_driver_generate_leased_traffic.py:45 | an acknowledged put stores the value and attaches the key to the lease iff it named the lease |
| LeasedTraffic.Cluster.Revoke | test-template/python-generate-traffic/parallel_driver_generate_leased_traffic.py:170 | a revocation that reaches the cluster deletes exactly the keys attached to the lease; one that raises changes nothing |
| LeasedTraffic.Cluster.SimulateTraffic | test-template/python-generate-traffic/parallel_driver_generate_leased_traffic.py:23-58 | generate_requests() attempts; kvs is exactly the returned puts in order; the store and lease hold their effects |
| LeasedTraffic.ValidatePuts | test-template/python-generate-traffic/parallel_driver_generate_leased_traffic.py:61-91 | true iff every successful get reads the recorded value (failed gets skipped); otherwise (value, db value) of the first mismatch |
| LeasedTraffic.ValidateKeysWithRevokedLease | test-template/python-generate-traffic/parallel_driver_generate_leased_traffic.py:94-125 | unleased keys skipped; true iff no leased key reads a value; otherwise the first such key |
| LeasedTraffic.FailedGetsPass | test-template/python-generate-traffic/parallel_driver_generate_leased_traffic.py:109-116 | a failed get reads no value and so passes the revoked-lease check (and the other two) |
| LeasedTraffic.ValidateKeysPersist | test-template/python-generate-traffic/parallel_driver_generate_leased_traffic.py:128-158 | leased keys and failed gets skipped; true iff no unleased key reads as absent; otherwise the first such key |
| LeasedTraffic.LeasedSession | test-template/python-generate-traffic/parallel_driver_generate_leased_traffic.py:161-179 | validate_puts runs on the store as the puts left it; if the revocation raises, the script ends there and neither lease check runs; otherwise the lease checks run on that store minus the leased keys |
| LeasedTraffic.FaithfulClusterPasses | test-template/python-generate-traffic/parallel_driver_generate_leased_traffic.py:161-179 | a cluster that keeps what it acknowledged passes all three checks whichever gets fail (distinct keys) |
| LeasedTraffic.RevokingFirstBreaksValidatePuts | test-template/python-generate-traffic/parallel_driver_generate_leased_traffic.py:163-170 | had the lease been revoked before validate_puts, a reachable leased key would fail it |
| PlainTraffic.SuccessfulPairsCount | test-template/python-generate-traffic/parallel_driver_generate_traffic.py:29-42 | kvs has one pair per put that returned, no more than the attempts |
| PlainTraffic.SimulateTraffic | test-template/python-generate-traffic/parallel_driver_generate_traffic.py:19-48 | generate_requests() attempts; kvs is the (key, value) pairs of the returned puts, in order |
| PlainTraffic.ValidatePuts | test-template/python-generate-traffic/parallel_driver_generate_traffic.py:51-79 | (True, None) iff no successful get reads a different value, the empty kvs included; otherwise (value, db value) of the first mismatch; failed gets skipped |
| PlainTraffic.ReadBackDecides | test-template/python-generate-traffic/parallel_driver_generate_traffic.py:66-70 | a reachable get passes iff the store holds the pair's value; an unreachable one always passes |
| PlainTraffic.FaithfulStorePasses | test-template/python-generate-traffic/parallel_driver_generate_traffic.py:82-87 | a store holding every acknowledged pair makes the consistency assertion hold |
| DeleteKeys.Etcd.Count | test-template/go-delete-keys/serial_driver_delete_keys.go:80-86 | resp.Count is 0 iff the key is absent, at most 1 |
| DeleteKeys.Etcd.Delete | test-template/go-delete-keys/serial_driver_delete_keys.go:62-69 | a delete that reaches the store removes the key and returns no error; otherwise an error and no change |
| DeleteKeys.FirstHalf | test-template/go-delete-keys/serial_driver_delete_keys.go:53-54 | the chosen keys are a prefix of the listing of length len/2 rounded down |
| DeleteKeys.SucceededMembers | test-template/go-delete-keys/serial_driver_delete_keys.go:60-70 | deleted_keys holds exactly the chosen keys whose delete returned: each entry is a chosen key at a position whose delete returned, every such key is in it, and it is no longer than the chosen keys |
| DeleteKeys.RemovedEntries | test-template/go-delete-keys/serial_driver_delete_keys.go:61-69 | after the deletes the store holds exactly the other keys, with their values |
| DeleteKeys.DeleteKeys | test-template/go-delete-keys/serial_driver_delete_keys.go:30-94 | a failed listing exits before any delete; otherwise deleted_keys is the chosen keys whose delete returned, in order, the store loses exactly them, and the Always verdicts are one per reachable get, each "count is 0" |
| DeleteKeys.DeletedKeysReadAsAbsent | test-template/go-delete-keys/serial_driver_delete_keys.go:79-87 | against a store without the deleted keys, every Always verdict holds, one per get that reached the store |
| DeleteKeys.DeleteRunHolds | test-template/go-delete-keys/serial_driver_delete_keys.go:49-87 | with no other writer, every verdict of a run holds, deleted keys come from the first half, and keys outside it keep their values |

## Left out

- Connecting to the cluster is left out, because it is network I/O: `connect_to_host`, Go's `Connect`, host choice, the dial timeout and `sys.exit`. A connection failure of the traffic driver is the input `connects`. The other drivers assume they connected.
- The health-check entry points, the Java validators and the Rust consistency check are not part of this model, because they are only network polling. The test template's `GenerateTraffic` and `main` are left out because they do not compile.
- `helper.py` calls `sys.exit` without importing `sys`, so a failed connection raises `NameError`. This is not modelled because connecting is not modelled.
- Cross-process file locking is left out because it is concurrency. Each locked block is one atomic method. Concurrent drivers writing the same store are likewise not modelled.
- The linearizability checker, its verbose mode and the HTML visualisation branch of the workload validator are left out because they are a foreign library. The checker is a parameter.
- `combinations.All` is modelled as every non-empty subset enumerated by bit mask. The library's own order is not part of this model, so "the first passing subset" is first in mask order.
- Request.GenerateRequests: the normal draw and the weighted `choices` are left out because they are floating point. The sample and one draw per request are inputs, and the weights (and `choices`' error on non-positive weights) are not modelled.
- The Antithesis SDK's randomness, `sometimes`/`reachable`/`unreachable` assertions and all logging are left out. The one `Always` in DeleteKeys and the ones in the Python `__main__` blocks are returned as booleans.
- Encoding is left out: UTF-8 decoding of values, Unicode whitespace in `strip`, underscores in Python's `int`, the scanner's 64 KiB line limit and `\r\n` beyond dropping a final `\r`.
- DeleteKeys.Etcd.Delete, LeasedTraffic.Cluster.ApplyPut and LeasedTraffic.Cluster.Revoke: a call that raised after the store applied it is not modelled, because the model gives each call one outcome; a failed call leaves the store unchanged. DeleteKeys.RemovedEntries and DeleteKeys.DeleteRunHolds rely on this, since a key whose delete raised is taken to be still present.
- The lease grant failing and the clients closing are left out.
- Numeric widths are left out: the clock and ids are unbounded integers, and 64-bit range matters only when parsing.
- TrafficLog.FormatParseRoundTrip is stated only for records whose fields hold no comma or line break and whose value or response is not the text "None". Other records do not read back as written. Driver-written values always meet this (RecordsArePlain).
- LeasedTraffic.FaithfulClusterPasses needs distinct random keys. With a repeated key the later put wins, and the earlier record can then fail validate_puts.
- PlainTraffic.FaithfulStorePasses: no store can meet its premise when the acknowledged pairs repeat a key with two values. In that case the later put wins, and the real validate_puts fails a store that kept every write, so the lemma says nothing about it.
- Text.ReadLine: Python's universal newlines in text mode are not modelled. A lone `\r` would also end the line, and `\r\n` would come back as `\n`. The model reads up to the first `\n` only, so a counter file holding a `\r` reads differently (for "1\r2" Python gets the ids [1], the model fails to parse). The counter writer never writes `\r`, so the files the drivers share never hold one.
- LocalFileHelper.TrafficFiles.GenerateTrafficId's missing-file case returns None ("raised") instead of killing the process.
