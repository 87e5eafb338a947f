# Torwell84 backend core in Dafny

This project models the stateful core of the Torwell84 Go backend. That backend fronts a Tor client with a pool of Cloudflare Worker endpoints. The model covers five pieces:

- **Endpoint pool** (`Workers`, backend/worker.go):
  - `WorkerManager` holds an ordered list of `{URL, Active}` endpoints, a round-robin cursor and a persistence file.
  - `Next` does failover selection over the list.
  - `Add` validates an endpoint and appends it.
  - `Remove` deletes the first endpoint with a given URL.
  - `CheckAll` and `TestAll` refresh every flag from the health probe.
  - `Load` and `save` move the list to and from the file.
- **Prewarmed circuit pool** (`Circuits`, backend/circuit.go): a FIFO queue of numbered circuit handles, topped up to a target size from a monotonic ID counter.
- **TTL resolution cache** (`Dns`, backend/dnscache.go): maps a host to its addresses and an expiry time.
- **Shared state helpers** (`Backend`, backend/main.go):
  - the connection progress with clamping;
  - the status message and the progress animation's cancel handle;
  - the progress step table;
  - the 1000-entry log buffers;
  - `boolInt`.
- **Tor process wrapper** (`Tor`, backend/torengine.go): `Start`/`Stop` on the recorded process, and the command line built from `torrc` and `bridges.txt`.

Each Go type whose fields are updated in place is a Dafny `class` whose methods use `modifies` clauses. Each method is proved against a pure specification function, and lemmas about that function state what the source promises:

- `Next` is proved against `Select`, and `Calls` strings successive selections together;
- `Remove` against `RemoveFirst`;
- `CheckAll`/`TestAll` against `Refreshed`;
- the argument builder against `TorArgs`, `Kept` and `BridgePairs`.

Everything outside the program becomes a parameter:

- The HTTP health probe is an oracle `healthy: string -> bool`.
- The outcome of writing the worker file is `writeOk`, and what reading it gives is a `FileRead`.
- The DNS resolver's answer is a `Resolution`.
- The clock is an integer `now`, and a TTL is a `nat`.
- The environment variable `TOR_BINARY`, whether `torrc` exists, the lines of `bridges.txt` (`None` when it cannot be read), the OBFS4 setting, and the outcomes of launching and killing the process are parameters too.

The model is sequential: one call at a time, with no locks.

## Model

| member | source | states |
|---|---|---|
| Workers.Scan | backend/worker.go:92-98 | the offset at which the scan from a slot first meets an active endpoint, with every endpoint before it inactive; None exactly when every remaining slot is inactive |
| Workers.Select | backend/worker.go:86-100 | an empty list gives ("", false) and leaves the cursor alone; otherwise the cursor ends below the length; a miss gives "" and leaves the cursor at old cursor mod length; a hit returns the URL of an active endpoint `i`, and the cursor ends just past `i` |
| Workers.SelectMod | backend/worker.go:93 | Next on a non-empty list depends on the cursor only modulo the length |
| Workers.Calls | backend/worker.go:86-100 | the URLs returned by k successive Next calls from a cursor, one per call |
| Workers.CallsMod | backend/worker.go:93 | successive calls from any cursor are those from the cursor reduced modulo the length |
| Workers.SelectFindsIffActive | backend/worker.go:92-99 | Next finds an endpoint if and only if some endpoint is active |
| Workers.SelectAllActive | backend/worker.go:92-97 | with every endpoint active, Next at cursor c returns endpoint c and moves the cursor to (c+1) mod length |
| Workers.CallsPrefix | backend/worker.go:86-100 | the URLs of k successive Next calls are a prefix of those of m >= k calls |
| Workers.RoundRobinOrder | backend/worker.go:92-97 | with every endpoint active, successive calls from any cursor c walk the list in insertion order from slot c mod length, wrapping around |
| Workers.NoStarvation | backend/worker.go:92-97 | an active endpoint is returned within the next length-many calls, from any cursor value, including one left at or past the length by Remove or Load |
| Workers.RemoveFirst | backend/worker.go:125-130 | the list with its first endpoint of the URL taken out: at most one endpoint shorter |
| Workers.RemoveFirstAt | backend/worker.go:125-130 | removal deletes exactly the first endpoint with the URL and keeps the others in order |
| Workers.RemoveFirstAbsent | backend/worker.go:125-130 | removing a URL that is not present changes nothing |
| Workers.RemoveFirstDistinct | backend/worker.go:125-130 | on a list with unique URLs, removal keeps the URLs unique, leaves no endpoint with the URL and keeps every other endpoint |
| Workers.Refreshed | backend/worker.go:138-144 | the list after every endpoint was probed in order and its flag set to the outcome; same length |
| Workers.RefreshedAt | backend/worker.go:138-144 | a refresh keeps the length, the URLs and their order, and sets each flag to that URL's probe outcome |
| Workers.RefreshedIs | backend/worker.go:138-144 | any list that agrees pointwise with those outcomes is the refresh |
| Workers.WorkerManager.constructor | backend/worker.go:54-56 | a new manager has no endpoints, cursor 0 and no file |
| Workers.WorkerManager.SaveError | backend/worker.go:205-214 | save fails only when a file is configured and the write fails |
| Workers.WorkerManager.Save | backend/worker.go:205-214 | returns that error; the file gets the current list exactly when a file is configured and the write succeeds |
| Workers.WorkerManager.List | backend/worker.go:76-82 | returns a list equal to the current list |
| Workers.WorkerManager.Next | backend/worker.go:86-100 | changes only the cursor; result and new cursor are those of Select on the old cursor |
| Workers.WorkerManager.Add | backend/worker.go:103-119 | an empty URL, a failed probe or a duplicate URL each give their error and change neither the list nor the file; otherwise appends {url, true} at the end, returns the save error without undoing the append, and keeps URLs unique |
| Workers.WorkerManager.Remove | backend/worker.go:122-132 | the new list is RemoveFirst of the old one; the list is then saved |
| Workers.WorkerManager.CheckAll | backend/worker.go:135-146 | the new list is the refresh of the old one under the probe; the list is then saved |
| Workers.WorkerManager.Test | backend/worker.go:150-155 | an empty URL is rejected; otherwise succeeds exactly when the probe does; nothing changes |
| Workers.WorkerManager.TestAll | backend/worker.go:159-174 | refreshes like CheckAll and returns a map whose keys are the URLs of the list, each mapped to that endpoint's new flag |
| Workers.RefreshResults | backend/worker.go:163-171 | after a probe pass, the list is the refresh, and the outcome recorded for each of its URLs is that endpoint's new flag |
| Workers.WorkerManager.Load | backend/worker.go:190-202 | names the file; a missing file is no error, keeps the list and records an empty file; a read or decode failure returns its error and keeps the list; decoded content replaces the list and is recorded as the file content |
| Workers.RotationAndFailover | backend/main_test.go:104-141 | two healthy endpoints come up in insertion order, and after the first fails its probe Next fails over to the second |
| Workers.PersistenceRoundTrip | backend/main_test.go:143-164 | an endpoint added to a file-backed pool is what a second pool loads from that file |
| Circuits.RunAt | backend/circuit.go:32-35 | element i of the run from `first` has ID first + i |
| Circuits.Run | backend/circuit.go:32-50 | the circuits numbered first, first+1, ..., in queue order, as many as asked for |
| Circuits.RunSnoc | backend/circuit.go:33-34 | minting the next ID onto the back of a run extends the run |
| Circuits.RunTail | backend/circuit.go:46-47 | popping the front of a run leaves the run that starts one ID later |
| Circuits.RunConcat | backend/circuit.go:32-35 | a run split in two is the two shorter runs in order |
| Circuits.Target | backend/circuit.go:32 | the length the top-up loop reaches: the size, or 0 when the size is negative |
| Circuits.CircuitManager.Valid | backend/circuit.go:32-50 | the queue is exactly the consecutive IDs nextID-len+1 .. nextID, in order, all positive |
| Circuits.CircuitManager.constructor | backend/circuit.go:22-26 | the pool holds the circuits with IDs 1 .. n in order, nextID is n (0 when n < 0), and the queue is consecutive and full |
| Circuits.CircuitManager.Prewarm | backend/circuit.go:29-36 | only appends freshly numbered circuits, one per increment of nextID, up to the size; changes nothing when the pool is already at the size; keeps the queue consecutive |
| Circuits.CircuitManager.Next | backend/circuit.go:39-51 | nextID grows by one and the length is unchanged; an empty pool mints a circuit directly and stays empty; otherwise returns the front and queues the new ID behind the rest; the queue stays the consecutive IDs ending at nextID |
| Circuits.ThreeDraws | backend/main_test.go:308-319 | three draws from a new pool return IDs 1, 2 and 3, which are distinct and increasing |
| Dns.StoredEntryLifetime | backend/dnscache.go:29-45 | an entry stored at t serves exactly the lookups before t + ttl; the comparison is strict |
| Dns.Live | backend/dnscache.go:29 | the cache answers a host at time now: it has an entry and now is strictly before its expiry |
| Dns.DnsCache.constructor | backend/dnscache.go:23-25 | a new cache is empty and keeps the given TTL |
| Dns.DnsCache.LookupHost | backend/dnscache.go:27-46 | a live entry answers without the resolver and the cache is unchanged; otherwise the resolver's answer is returned; an error leaves the cache unchanged, and a success stores {addrs, now + ttl}; other hosts are never touched |
| Dns.TwoLookups | backend/main_test.go:321-334 | after a successful lookup at t1, a lookup before t1 + ttl returns the same addresses whatever the resolver would say; later lookups consult the resolver |
| Backend.BoolInt | backend/main.go:170-175 | 1 exactly for true, 0 for false |
| Backend.Clamp | backend/main.go:38-43 | the stored progress lies in [0, 100] and equals the request when the request is already in range |
| Backend.StepsClimb | backend/main.go:75-78 | the step percentages strictly increase, stay in [0, 100], and end at 100 with "ready" |
| Backend.Appended | backend/main.go:119-124 | the buffer grows by one up to 1000 entries and never beyond; the new entry is last, and what precedes it is the newest part of the old buffer, in order |
| Backend.LogBuffer.constructor | backend/main.go:29-30 | a buffer starts empty |
| Backend.LogBuffer.Add | backend/main.go:119-124 | the buffer becomes Appended of the old buffer and "<timestamp> <msg>" |
| Backend.Progress.constructor | backend/main.go:24-28 | progress 0, status "disconnected", no cancel handle |
| Backend.Progress.SetProgress | backend/main.go:37-47 | stores the clamped value |
| Backend.Progress.GetProgress | backend/main.go:61-65 | returns the stored progress |
| Backend.Progress.SetStatus | backend/main.go:49-53 | stores the status |
| Backend.Progress.GetStatus | backend/main.go:55-59 | returns the stored status |
| Backend.Progress.StartProgress | backend/main.go:67-73 | holds a fresh cancel handle and resets progress to 0 |
| Backend.Progress.PlaySteps | backend/main.go:74-88 | an animation cancelled after `ticks` seconds leaves the state of step ticks-1, or untouched for 0; run to the end, it leaves 100 and "ready" |
| Backend.Progress.StopProgress | backend/main.go:91-98 | progress 0, status "disconnected", cancel handle cleared |
| Tor.IsSpace | backend/torengine.go:45 | the white-space set of Go's unicode.IsSpace, which strings.TrimSpace strips: tab, newline, vertical tab, form feed, carriage return, space, U+0085, U+00A0, U+1680, U+2000-U+200A, U+2028, U+2029, U+202F, U+205F, U+3000 |
| Tor.TrimLeft | backend/torengine.go:45 | the line without its leading white space; never longer than the line |
| Tor.TrimRight | backend/torengine.go:45 | the line without its trailing white space; never longer than the line |
| Tor.TrimSpace | backend/torengine.go:45 | strings.TrimSpace: both ends trimmed; never longer than the line (its exact shape is TrimSpaceShape) |
| Tor.TrimLeftShape | backend/torengine.go:45 | trimming the left keeps a suffix, cuts off only white space and leaves no leading white space |
| Tor.TrimRightShape | backend/torengine.go:45 | trimming the right keeps a prefix, cuts off only white space and leaves no trailing white space |
| Tor.TrimSpaceShape | backend/torengine.go:45 | TrimSpace keeps one contiguous piece of the line with no white space at either end and cuts off only white space |
| Tor.TrimSpaceIdempotent | backend/torengine.go:45 | trimming a trimmed line changes nothing |
| Tor.Kept | backend/torengine.go:44-50 | no more bridges than lines, and every bridge is non-blank and does not start with '#' |
| Tor.KeptConcat | backend/torengine.go:44-50 | lines are handled one at a time: the bridges of two pieces of a file are those of each piece, in order |
| Tor.KeptComplete | backend/torengine.go:45-49 | every line whose trimmed form is non-blank and not a comment gives a bridge |
| Tor.KeptSound | backend/torengine.go:45-49 | every bridge is the trimmed form of some line of the file |
| Tor.BridgePairs | backend/torengine.go:49 | a "--Bridge" argument followed by the bridge, for each bridge in order: two arguments per bridge |
| Tor.BridgePairsAt | backend/torengine.go:49 | bridge j gives "--Bridge" at position 2j and the bridge at 2j+1 |
| Tor.BridgePairsConcat | backend/torengine.go:49 | the pairs of two bridge lists are the pairs of each, in order |
| Tor.TorArgs | backend/torengine.go:32-52 | the argument list Start passes: "-f" and dir/torrc when the torrc exists, then the bridge flags and pairs when OBFS4 is on and bridges.txt was read; its length is 2 for the torrc part plus 4 and two per kept line for the bridge part |
| Tor.Binary | backend/torengine.go:28-31 | TOR_BINARY when it is non-empty, "tor" otherwise |
| Tor.TorArgsTorrc | backend/torengine.go:32-36 | the arguments open with "-f" and dir/torrc exactly when the torrc exists |
| Tor.TorArgsBridges | backend/torengine.go:37-52 | after the torrc part, the bridge section is there exactly when OBFS4 is on and bridges.txt was read; it holds the four bridge flags followed by one "--Bridge" pair per kept line, in file order |
| Tor.ScanBridges | backend/torengine.go:44-50 | the scanner loop yields exactly the "--Bridge" pairs of the kept lines, in order |
| Tor.BuildArgs | backend/torengine.go:32-52 | the argument list Start builds is exactly TorArgs |
| Tor.TorEngine.constructor | backend/torengine.go:19 | no process is recorded |
| Tor.TorEngine.Start | backend/torengine.go:22-61 | with a process recorded, returns no error and changes nothing; a failed launch returns its error and records nothing; a successful one records the process with the chosen binary and TorArgs |
| Tor.TorEngine.Stop | backend/torengine.go:64-74 | afterwards no process is recorded; with none recorded there is no error, otherwise the kill's outcome is returned |

## Left out

- The HTTP handlers, the metrics text, `handleTorrc`, `main`, `monitorIP`/`getLocalIP` and the UI: request and response glue and OS queries.
- The health probe's HTTP GET and the DNS-caching dialer `NewWorkerManager` installs: network I/O. The probe is the `healthy` oracle.
- Locking and goroutines. The model is sequential, so the following are not modelled:
  - `StartHealthChecker` and `CircuitManager.Start`, which repeat `CheckAll` and `prewarm` on a timer;
  - the timing of the `startProgress` goroutine. `PlaySteps` gives its effect for a given cancellation point.
- backend/log.go (the log file writer with rotation), backend/config.go, backend/state.go and backend/network.go are not part of this model. `addLog`'s forwarding of the entry to the log file is left out with log.go.
- Workers.WorkerManager.Load: `json.Unmarshal` may partly overwrite the list before it reports a type error. The model keeps the old list on every decode failure.
- Workers.WorkerManager.Load: after a read or decode failure, the recorded file content `stored` keeps its previous value, because the file does not hold a list of endpoints.
- Workers.WorkerManager.Save: the file content is the list itself, not its JSON text. A failed write is taken to leave the previous content in place, although a partial write could leave it damaged.
- Workers.WorkerManager.Add: URL uniqueness is proved to be preserved. It is not an invariant of the class, because a loaded file can contain duplicates, and the source does not check it.
- Dns.DnsCache.LookupHost: the source reads the clock twice, once for the hit test and once for the expiry. The model reads it once, so it ignores the resolver's latency. `time.Duration` is a `nat` TTL, and the copy made of the stored slice is invisible with values.
- Circuits.CircuitManager: `nextID` is an unbounded integer. Go's `int` is 64-bit and would wrap to negative, already issued IDs after 2^63-1 mints, which is out of practical reach. Valid's bound `len <= nextID`, and with it the strictly increasing IDs, relies on that.
- Workers.WorkerManager: the cursor `index` is an unbounded natural. Go's `int` cursor cannot overflow either: Next stores it reduced modulo the length, and Remove or Load leave it unchanged.
- Tor.TorArgs: `filepath.Join` path cleaning is reduced to joining with "/". `bufio.Scanner`'s splitting of the bytes into lines and its 64 KiB line limit are not modelled, because the file arrives as its lines.
- Tor.TorEngine.Start: the process's standard output and error wiring is not modelled. `Stop`'s wait for the killed process is not modelled either.
- The package as written does not compile: the tests call `NewWorkerManager()` with no argument, and `main` calls `Start` with a context. The model follows the definitions in worker.go and circuit.go.
