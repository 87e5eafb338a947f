/**
 * The endpoint pool of backend/worker.go: an ordered list of worker endpoints
 * with unique URLs, a round-robin cursor used for failover selection, health
 * refreshes driven by a probe, and a persisted copy of the list.
 *
 * The HTTP health probe is an oracle `healthy: string -> bool` (true when the
 * GET on the health path answers 200). The outcome of writing the list to disk
 * is a parameter `writeOk`, and what the last successful write left on disk is
 * the field `stored`.
 */
module Workers {
  import opened Wrappers

  /** One endpoint: its URL (its identity) and the outcome of its last probe. */
  datatype Worker = Worker(url: string, active: bool)

  /** The errors the pool returns to its callers. */
  datatype WorkerError =
    | EmptyUrl          // "empty url"
    | HealthCheckFailed // the probe failed (transport error or a status other than 200)
    | DuplicateUrl      // "duplicate url"
    | SaveFailed        // writing the list to its file failed
    | ReadFailed        // reading the file failed for a reason other than its absence
    | DecodeFailed      // the file's content is not a list of workers

  /** What reading the persistence file gave. */
  datatype FileRead = Missing | Unreadable | Malformed | Decoded(workers: seq<Worker>)

  predicate HasUrl(ws: seq<Worker>, url: string) {
    exists i :: 0 <= i < |ws| && ws[i].url == url
  }

  /** No two endpoints share a URL. */
  ghost predicate Distinct(ws: seq<Worker>) {
    forall i, j :: 0 <= i < j < |ws| ==> ws[i].url != ws[j].url
  }

  function UrlSet(ws: seq<Worker>): set<string> {
    set i | 0 <= i < |ws| :: ws[i].url
  }

  // ---------------------------------------------------------------------------
  // Round-robin selection

  /** The slot `k` steps after slot `start`, wrapping around the list. */
  function At(ws: seq<Worker>, start: nat, k: nat): Worker
    requires |ws| > 0
  {
    ws[(start + k) % |ws|]
  }

  /**
   * The number of steps, among steps `k` .. |ws|-1 after slot `start`, at which
   * the scan meets its first active endpoint; None when all those are inactive.
   */
  function Scan(ws: seq<Worker>, start: nat, k: nat): (r: Option<nat>)
    requires |ws| > 0 && k <= |ws|
    ensures r.Some? ==> k <= r.value < |ws| && At(ws, start, r.value).active
    ensures r.Some? ==> forall j :: k <= j < r.value ==> !At(ws, start, j).active
    ensures r.None? ==> forall j :: k <= j < |ws| ==> !At(ws, start, j).active
    decreases |ws| - k
  {
    if k == |ws| then None
    else if At(ws, start, k).active then Some(k)
    else Scan(ws, start, k + 1)
  }

  /** What one call of Next gives: the URL, whether one was found, the new cursor. */
  datatype Pick = Pick(url: string, found: bool, cursor: nat)

  /**
   * The outcome of Next on list `ws` with cursor `cursor`: scan at most |ws|
   * slots from `cursor mod |ws|`, advancing the cursor after every slot, and
   * stop at the first active endpoint.
   */
  function Select(ws: seq<Worker>, cursor: nat): (p: Pick)
    ensures |ws| == 0 ==> p == Pick("", false, cursor)
    ensures |ws| > 0 ==> p.cursor < |ws|
    ensures !p.found ==> p.url == ""
    ensures |ws| > 0 && !p.found ==> p.cursor == cursor % |ws|
    ensures p.found ==> exists i :: 0 <= i < |ws| && ws[i].active && ws[i].url == p.url && p.cursor == (i + 1) % |ws|
  {
    if |ws| == 0 then Pick("", false, cursor)
    else
      var s := cursor % |ws|;
      match Scan(ws, s, 0)
      case None => Pick("", false, s)
      case Some(k) =>
        ModSucc(s + k, |ws|);
        Pick(At(ws, s, k).url, true, (s + k + 1) % |ws|)
  }

  /** Euclidean remainder is determined by any quotient-remainder decomposition. */
  lemma ModUnique(a: int, n: int, q: int, r: int)
    requires n > 0 && 0 <= r < n && a == q * n + r
    ensures a % n == r
  {
    var q', r' := a / n, a % n;
    assert a == q' * n + r';
    assert (q - q') * n == r' - r;
    if q - q' >= 1 { MulAtLeast(q - q', n); }
    if q' - q >= 1 { MulAtLeast(q' - q, n); }
  }

  lemma MulAtLeast(k: int, n: int)
    requires k >= 1 && n > 0
    ensures k * n >= n
  {}

  lemma ModSucc(a: nat, n: nat)
    requires n > 0
    ensures (a % n + 1) % n == (a + 1) % n
  {
    var q := a / n;
    assert a == q * n + a % n;
    var r := a % n;
    if r + 1 < n {
      ModUnique(r + 1, n, 0, r + 1);
      ModUnique(a + 1, n, q, r + 1);
    } else {
      assert (q + 1) * n == q * n + n;
      ModUnique(r + 1, n, 1, 0);
      ModUnique(a + 1, n, q + 1, 0);
    }
  }

  /** Adding `j` to a cursor that was already reduced gives the same slot as adding it first. */
  lemma ModShift(c: nat, j: nat, n: nat)
    requires n > 0
    ensures (c % n + j) % n == (c + j) % n
  {
    var q := c / n;
    assert c == q * n + c % n;
    var q2 := (c % n + j) / n;
    assert c % n + j == q2 * n + (c % n + j) % n;
    ModUnique(c + j, n, q + q2, (c % n + j) % n);
  }

  /** The slot `i` lies `Dist(c, i, n)` steps after slot `c`. */
  function Dist(c: nat, i: nat, n: nat): (d: nat)
    requires c < n && i < n
    ensures d < n && (c + d) % n == i
  {
    if c <= i then ModUnique(c + i - c, n, 0, i); i - c
    else ModUnique(i + n, n, 1, i); i + n - c
  }

  /** Next finds an endpoint exactly when some endpoint is active. */
  lemma {:induction false} SelectFindsIffActive(ws: seq<Worker>, cursor: nat)
    ensures Select(ws, cursor).found <==> exists i :: 0 <= i < |ws| && ws[i].active
  {
    if i :| 0 <= i < |ws| && ws[i].active {
      var n := |ws|;
      var s := cursor % n;
      var d := Dist(s, i, n);
      assert At(ws, s, d) == ws[i];
      assert Scan(ws, s, 0).Some?;
    }
  }

  /** With every endpoint active, Next from slot `c` returns slot `c` and moves to the following slot. */
  lemma SelectAllActive(ws: seq<Worker>, c: nat)
    requires forall i :: 0 <= i < |ws| ==> ws[i].active
    requires c < |ws|
    ensures Select(ws, c) == Pick(ws[c].url, true, (c + 1) % |ws|)
  {
    assert c % |ws| == c;
    assert At(ws, c, 0).active;
  }

  /** The URLs returned by `k` successive calls of Next, starting from cursor `cursor`. */
  function Calls(ws: seq<Worker>, cursor: nat, k: nat): (urls: seq<string>)
    ensures |urls| == k
    decreases k
  {
    if k == 0 then []
    else
      var p := Select(ws, cursor);
      [p.url] + Calls(ws, p.cursor, k - 1)
  }

  /** Fewer calls give a prefix of what more calls give. */
  lemma {:induction false} CallsPrefix(ws: seq<Worker>, cursor: nat, k: nat, m: nat)
    requires k <= m
    ensures Calls(ws, cursor, k) == Calls(ws, cursor, m)[..k]
    decreases k
  {
    if k > 0 {
      var p := Select(ws, cursor);
      CallsPrefix(ws, p.cursor, k - 1, m - 1);
    }
  }

  /** Next reduces the cursor modulo the length before it looks at any slot. */
  lemma SelectMod(ws: seq<Worker>, c: nat)
    requires |ws| > 0
    ensures Select(ws, c) == Select(ws, c % |ws|)
  {
    ModUnique(c % |ws|, |ws|, 0, c % |ws|);
  }

  /** Successive calls from any cursor are those from the cursor reduced modulo the length. */
  lemma CallsMod(ws: seq<Worker>, c: nat, k: nat)
    requires |ws| > 0
    ensures Calls(ws, c, k) == Calls(ws, c % |ws|, k)
  {
    if k > 0 {
      SelectMod(ws, c);
    }
  }

  /**
   * Round-robin fairness: with every endpoint active, `k` successive calls
   * from any cursor `c` return the URLs of slots c mod |ws|, the slot after
   * it, ... in list order, wrapping around; with k == |ws| every endpoint
   * comes up exactly once.
   */
  lemma RoundRobinOrder(ws: seq<Worker>, c: nat, k: nat)
    requires forall i :: 0 <= i < |ws| ==> ws[i].active
    requires |ws| > 0
    ensures forall j :: 0 <= j < k ==> Calls(ws, c, k)[j] == At(ws, c % |ws|, j).url
  {
    CallsMod(ws, c, k);
    RoundRobinFrom(ws, c % |ws|, k);
  }

  /** RoundRobinOrder for a cursor that is already a slot. */
  lemma {:induction false} RoundRobinFrom(ws: seq<Worker>, c: nat, k: nat)
    requires forall i :: 0 <= i < |ws| ==> ws[i].active
    requires c < |ws|
    ensures forall j :: 0 <= j < k ==> Calls(ws, c, k)[j] == At(ws, c, j).url
    decreases k
  {
    if k > 0 {
      var n := |ws|;
      SelectAllActive(ws, c);
      var c' := (c + 1) % n;
      RoundRobinFrom(ws, c', k - 1);
      forall j | 0 <= j < k
        ensures Calls(ws, c, k)[j] == At(ws, c, j).url
      {
        if j > 0 {
          assert Calls(ws, c, k)[j] == Calls(ws, c', k - 1)[j - 1];
          assert Calls(ws, c', k - 1)[j - 1] == ws[(c' + (j - 1)) % n].url;
          ModShift(c + 1, j - 1, n);
          assert c + 1 + (j - 1) == c + j;
        } else {
          ModUnique(c, n, 0, c);
        }
      }
    }
  }

  /**
   * No starvation: an active endpoint is returned by one of the next |ws|
   * calls, whatever value the cursor has, because every call moves the
   * cursor past the slot it returns.
   */
  lemma NoStarvation(ws: seq<Worker>, c: nat, i: nat)
    requires i < |ws| && ws[i].active
    ensures ws[i].url in Calls(ws, c, |ws|)
  {
    var s := c % |ws|;
    CallsMod(ws, c, |ws|);
    var d := Dist(s, i, |ws|);
    Reaches(ws, s, i, d);
    CallsPrefix(ws, s, d + 1, |ws|);
  }

  lemma {:induction false} Reaches(ws: seq<Worker>, c: nat, i: nat, d: nat)
    requires c < |ws| && i < |ws| && ws[i].active
    requires d == Dist(c, i, |ws|)
    ensures ws[i].url in Calls(ws, c, d + 1)
    decreases d
  {
    var n := |ws|;
    assert c % n == c;
    assert At(ws, c, d) == ws[i];
    var r := Scan(ws, c, 0);
    assert r.Some?;
    var k := r.value;
    assert k <= d;
    var p := Select(ws, c);
    assert Calls(ws, c, d + 1) == [p.url] + Calls(ws, p.cursor, d);
    if k < d {
      var c' := (c + k + 1) % n;
      assert p.cursor == c';
      DistStep(c, i, n, k);
      Reaches(ws, c', i, d - k - 1);
      CallsPrefix(ws, c', d - k, d);
      var j :| 0 <= j < d - k && Calls(ws, c', d - k)[j] == ws[i].url;
      assert Calls(ws, c', d)[j] == ws[i].url;
    }
  }

  /** Moving the cursor `k + 1` slots towards slot `i`, without passing it, shortens the distance by `k + 1`. */
  lemma DistStep(c: nat, i: nat, n: nat, k: nat)
    requires c < n && i < n && k < Dist(c, i, n)
    ensures Dist((c + k + 1) % n, i, n) == Dist(c, i, n) - k - 1
  {
    if c + k + 1 < n {
      ModUnique(c + k + 1, n, 0, c + k + 1);
    } else {
      ModUnique(c + k + 1, n, 1, c + k + 1 - n);
    }
  }

  // ---------------------------------------------------------------------------
  // Removal and health refresh

  /** The list with its first endpoint of URL `url` taken out. */
  function RemoveFirst(ws: seq<Worker>, url: string): (r: seq<Worker>)
    ensures |r| <= |ws| <= |r| + 1
  {
    if ws == [] then []
    else if ws[0].url == url then ws[1..]
    else [ws[0]] + RemoveFirst(ws[1..], url)
  }

  /** Removing deletes exactly the first match and keeps the others in their order. */
  lemma {:induction false} RemoveFirstAt(ws: seq<Worker>, url: string, i: nat)
    requires i < |ws| && ws[i].url == url
    requires forall j :: 0 <= j < i ==> ws[j].url != url
    ensures RemoveFirst(ws, url) == ws[..i] + ws[i + 1..]
  {
    if i > 0 {
      var tail := ws[1..];
      assert forall j :: 0 <= j < i - 1 ==> tail[j] == ws[j + 1];
      RemoveFirstAt(tail, url, i - 1);
      assert tail[..i - 1] == ws[1..i];
      assert tail[i..] == ws[i + 1..];
      assert RemoveFirst(ws, url) == [ws[0]] + RemoveFirst(tail, url);
      assert [ws[0]] + ws[1..i] == ws[..i];
    }
  }

  /** Removing an absent URL changes nothing. */
  lemma {:induction false} RemoveFirstAbsent(ws: seq<Worker>, url: string)
    requires !HasUrl(ws, url)
    ensures RemoveFirst(ws, url) == ws
  {
    if ws != [] {
      assert !HasUrl(ws[1..], url) by {
        forall j | 0 <= j < |ws| - 1 ensures ws[1..][j].url != url {
          assert ws[1..][j] == ws[j + 1];
        }
      }
      RemoveFirstAbsent(ws[1..], url);
    }
  }

  /** On a list with unique URLs, removal keeps the URLs unique and leaves no endpoint with that URL. */
  lemma RemoveFirstDistinct(ws: seq<Worker>, url: string)
    requires Distinct(ws)
    ensures Distinct(RemoveFirst(ws, url)) && !HasUrl(RemoveFirst(ws, url), url)
    ensures forall j :: 0 <= j < |ws| && ws[j].url != url ==> ws[j] in RemoveFirst(ws, url)
  {
    if i :| 0 <= i < |ws| && ws[i].url == url {
      assert forall j :: 0 <= j < i ==> ws[j].url != url;
      RemoveFirstAt(ws, url, i);
      DeleteAtDistinct(ws, i);
    } else {
      RemoveFirstAbsent(ws, url);
    }
  }

  /** Deleting position `i` of a list with unique URLs keeps them unique, drops the URL at `i` and keeps every other element. */
  lemma DeleteAtDistinct(ws: seq<Worker>, i: nat)
    requires Distinct(ws) && i < |ws|
    ensures Distinct(ws[..i] + ws[i + 1..]) && !HasUrl(ws[..i] + ws[i + 1..], ws[i].url)
    ensures forall j :: 0 <= j < |ws| && j != i ==> ws[j] in ws[..i] + ws[i + 1..]
  {
    var r := ws[..i] + ws[i + 1..];
    forall a | 0 <= a < |r| ensures r[a] == ws[Skip(a, i)] {}
    forall a, b | 0 <= a < b < |r| ensures r[a].url != r[b].url {
      assert Skip(a, i) < Skip(b, i);
    }
    forall a | 0 <= a < |r| ensures r[a].url != ws[i].url {
      assert Skip(a, i) != i;
    }
    forall j | 0 <= j < |ws| && j != i ensures ws[j] in r {
      if j < i { assert r[j] == ws[j]; } else { assert r[j - 1] == ws[j]; }
    }
  }

  /** The position in the full list of element `a` of the list with position `i` taken out. */
  function Skip(a: nat, i: nat): nat {
    if a < i then a else a + 1
  }

  /** The list after every endpoint was probed in order and its flag set to the outcome. */
  function Refreshed(ws: seq<Worker>, healthy: string -> bool): (r: seq<Worker>)
    ensures |r| == |ws|
  {
    if ws == [] then []
    else [Worker(ws[0].url, healthy(ws[0].url))] + Refreshed(ws[1..], healthy)
  }

  /** A refresh keeps the URLs and their order and sets each flag to that URL's probe outcome. */
  lemma {:induction false} RefreshedAt(ws: seq<Worker>, healthy: string -> bool, i: nat)
    requires i < |ws|
    ensures |Refreshed(ws, healthy)| == |ws|
    ensures Refreshed(ws, healthy)[i] == Worker(ws[i].url, healthy(ws[i].url))
  {
    if i > 0 {
      RefreshedAt(ws[1..], healthy, i - 1);
    } else if |ws| > 1 {
      RefreshedAt(ws[1..], healthy, 0);
    }
  }

  // ---------------------------------------------------------------------------
  // The pool

  class WorkerManager {
    var workers: seq<Worker>
    /** The round-robin cursor; it is reduced modulo the list length before use. */
    var index: nat
    /** The persistence file; "" until Load names one, and then nothing is written. */
    var file: string
    /**
     * The list `file` holds, as this pool knows it: what Load read from it (the
     * empty list for a missing file), then what each successful write left there.
     */
    var stored: seq<Worker>

    constructor ()
      ensures workers == [] && index == 0 && file == "" && stored == []
    {
      workers, index, file, stored := [], 0, "", [];
    }

    /** The value `save` returns with the given write outcome. */
    function SaveError(writeOk: bool): (err: Option<WorkerError>)
      reads this
      ensures err == None <==> file == "" || writeOk
    {
      if file != "" && !writeOk then Some(SaveFailed) else None
    }

    /** What is stored after `save`, given what was stored before. */
    ghost predicate SavedFrom(before: seq<Worker>, writeOk: bool)
      reads this
    {
      stored == if file != "" && writeOk then workers else before
    }

    /** Writes the whole list to the file, unless no file is configured. */
    method Save(writeOk: bool) returns (err: Option<WorkerError>)
      modifies this`stored
      ensures err == SaveError(writeOk) && SavedFrom(old(stored), writeOk)
    {
      if file == "" {
        return None;
      }
      if !writeOk {
        return Some(SaveFailed);
      }
      stored := workers;
      err := None;
    }

    /** A copy of the current list. */
    method List() returns (ws: seq<Worker>)
      ensures ws == workers
    {
      ws := workers;
    }

    /** Round-robin failover selection; only the cursor changes. */
    method Next() returns (url: string, found: bool)
      modifies this`index
      ensures workers == old(workers)
      ensures Pick(url, found, index) == Select(workers, old(index))
    {
      var n := |workers|;
      if n == 0 {
        return "", false;
      }
      ghost var s := index % n;
      ModUnique(s, n, 0, s);
      var i := 0;
      while i < n
        invariant 0 <= i <= n
        invariant index % n == (s + i) % n
        invariant i > 0 ==> index < n
        invariant Scan(workers, s, i) == Scan(workers, s, 0)
      {
        var w := workers[index % n];
        assert w == At(workers, s, i);
        ghost var next := (s + i + 1) % n;
        assert (index + 1) % n == next by {
          ModSucc(index, n);
          ModSucc(s + i, n);
        }
        index := (index + 1) % n;
        ModUnique(index, n, 0, index);
        if w.active {
          return w.url, true;
        }
        i := i + 1;
      }
      assert index == s by {
        ModUnique(s + n, n, 1, s);
        ModUnique(index, n, 0, index);
      }
      url, found := "", false;
    }

    /** Validates and appends an endpoint, then saves the list. */
    method Add(url: string, healthy: string -> bool, writeOk: bool) returns (err: Option<WorkerError>)
      modifies this`workers, this`stored
      ensures url == "" ==> err == Some(EmptyUrl)
      ensures url != "" && !healthy(url) ==> err == Some(HealthCheckFailed)
      ensures url != "" && healthy(url) && HasUrl(old(workers), url) ==> err == Some(DuplicateUrl)
      ensures url == "" || !healthy(url) || HasUrl(old(workers), url) ==>
                workers == old(workers) && stored == old(stored)
      ensures url != "" && healthy(url) && !HasUrl(old(workers), url) ==>
                workers == old(workers) + [Worker(url, true)] &&
                err == SaveError(writeOk) && SavedFrom(old(stored), writeOk)
      ensures Distinct(old(workers)) ==> Distinct(workers)
    {
      if url == "" {
        return Some(EmptyUrl);
      }
      if !healthy(url) {
        return Some(HealthCheckFailed);
      }
      for i := 0 to |workers|
        invariant forall j :: 0 <= j < i ==> workers[j].url != url
      {
        if workers[i].url == url {
          return Some(DuplicateUrl);
        }
      }
      workers := workers + [Worker(url, true)];
      err := Save(writeOk);
    }

    /** Deletes the first endpoint with this URL, if any, then saves (a save error is dropped). */
    method Remove(url: string, writeOk: bool)
      modifies this`workers, this`stored
      ensures workers == RemoveFirst(old(workers), url)
      ensures SavedFrom(old(stored), writeOk)
    {
      var i := 0;
      while i < |workers|
        invariant 0 <= i <= |workers|
        invariant workers == old(workers)
        invariant forall j :: 0 <= j < i ==> workers[j].url != url
      {
        if workers[i].url == url {
          RemoveFirstAt(workers, url, i);
          workers := workers[..i] + workers[i + 1..];
          break;
        }
        i := i + 1;
      }
      if workers == old(workers) {
        RemoveFirstAbsent(workers, url);
      }
      var _ := Save(writeOk);
    }

    /** Probes every endpoint in list order and sets its flag, then saves (a save error is dropped). */
    method CheckAll(healthy: string -> bool, writeOk: bool)
      modifies this`workers, this`stored
      ensures workers == Refreshed(old(workers), healthy)
      ensures SavedFrom(old(stored), writeOk)
    {
      for i := 0 to |workers|
        invariant |workers| == |old(workers)| && stored == old(stored)
        invariant forall j :: 0 <= j < i ==> workers[j] == Worker(old(workers)[j].url, healthy(old(workers)[j].url))
        invariant forall j :: i <= j < |workers| ==> workers[j] == old(workers)[j]
      {
        var w := workers[i];
        var ok := healthy(w.url);
        workers := workers[i := w.(active := ok)];
      }
      RefreshedIs(old(workers), healthy, workers);
      var _ := Save(writeOk);
    }

    /** Probes one URL, which need not be in the pool; nothing changes. */
    method Test(url: string, healthy: string -> bool) returns (err: Option<WorkerError>)
      ensures url == "" ==> err == Some(EmptyUrl)
      ensures url != "" ==> (err == None <==> healthy(url))
      ensures url != "" && !healthy(url) ==> err == Some(HealthCheckFailed)
    {
      if url == "" {
        return Some(EmptyUrl);
      }
      err := if healthy(url) then None else Some(HealthCheckFailed);
    }

    /** Like CheckAll, and also returns every URL's probe outcome. */
    method TestAll(healthy: string -> bool, writeOk: bool) returns (results: map<string, bool>)
      modifies this`workers, this`stored
      ensures workers == Refreshed(old(workers), healthy)
      ensures results.Keys == UrlSet(workers)
      ensures forall i :: 0 <= i < |workers| ==> results[workers[i].url] == workers[i].active
      ensures SavedFrom(old(stored), writeOk)
    {
      results := map[];
      ghost var before := workers;
      for i := 0 to |workers|
        invariant |workers| == |before| && stored == old(stored)
        invariant forall j :: 0 <= j < i ==> workers[j] == Worker(before[j].url, healthy(before[j].url))
        invariant forall j :: i <= j < |workers| ==> workers[j] == before[j]
        invariant results.Keys == UrlSet(before[..i])
        invariant forall u :: u in results ==> results[u] == healthy(u)
      {
        var w := workers[i];
        var ok := healthy(w.url);
        ResultsStep(before, i, results, ok);
        workers := workers[i := w.(active := ok)];
        results := results[w.url := ok];
      }
      assert before[..|before|] == before;
      RefreshResults(before, workers, results, healthy);
      var _ := Save(writeOk);
    }

    /** Names the persistence file and replaces the list by its content when it could be read. */
    method Load(path: string, read: FileRead) returns (err: Option<WorkerError>)
      modifies this`file, this`workers, this`stored
      ensures file == path
      ensures read.Missing? ==> err == None && workers == old(workers) && stored == []
      ensures read.Unreadable? ==> err == Some(ReadFailed) && workers == old(workers) && stored == old(stored)
      ensures read.Malformed? ==> err == Some(DecodeFailed) && workers == old(workers) && stored == old(stored)
      ensures read.Decoded? ==> err == None && workers == read.workers && stored == read.workers
    {
      file := path;
      match read
      case Missing =>
        stored := [];
        err := None;
      case Unreadable => err := Some(ReadFailed);
      case Malformed => err := Some(DecodeFailed);
      case Decoded(ws) =>
        stored := ws;
        workers := ws;
        err := None;
    }
  }

  /** The URLs of a prefix one longer gain the URL of the next element. */
  lemma UrlSetSnoc(ws: seq<Worker>, i: nat)
    requires i < |ws|
    ensures UrlSet(ws[..i + 1]) == UrlSet(ws[..i]) + {ws[i].url}
  {
    assert forall j :: 0 <= j < i ==> ws[..i + 1][j] == ws[..i][j];
    assert ws[..i + 1][i] == ws[i];
  }

  /** Recording the outcome of the next URL extends the recorded URLs by that URL. */
  lemma ResultsStep(ws: seq<Worker>, i: nat, results: map<string, bool>, ok: bool)
    requires i < |ws| && results.Keys == UrlSet(ws[..i])
    ensures results[ws[i].url := ok].Keys == UrlSet(ws[..i + 1])
  {
    UrlSetSnoc(ws, i);
  }

  /** Two lists with the same URL at every position have the same URL set. */
  lemma UrlSetSameUrls(a: seq<Worker>, b: seq<Worker>)
    requires |a| == |b| && forall j :: 0 <= j < |a| ==> a[j].url == b[j].url
    ensures UrlSet(a) == UrlSet(b)
  {
    assert forall u :: u in UrlSet(a) ==> u in UrlSet(b);
    assert forall u :: u in UrlSet(b) ==> u in UrlSet(a);
  }

  /** A list that agrees pointwise with the refresh of `ws` is that refresh. */
  lemma RefreshedIs(ws: seq<Worker>, healthy: string -> bool, r: seq<Worker>)
    requires |r| == |ws|
    requires forall j :: 0 <= j < |ws| ==> r[j] == Worker(ws[j].url, healthy(ws[j].url))
    ensures r == Refreshed(ws, healthy)
  {
    if ws == [] {
      assert Refreshed(ws, healthy) == [];
    } else {
      RefreshedAt(ws, healthy, 0);
      forall j | 0 <= j < |ws| ensures Refreshed(ws, healthy)[j] == r[j] {
        RefreshedAt(ws, healthy, j);
      }
    }
  }

  /**
   * After a probe pass, the list is the refresh, and the outcomes recorded for
   * its URLs are its new flags.
   */
  lemma RefreshResults(ws: seq<Worker>, r: seq<Worker>, results: map<string, bool>, healthy: string -> bool)
    requires |r| == |ws| && forall j :: 0 <= j < |ws| ==> r[j] == Worker(ws[j].url, healthy(ws[j].url))
    requires results.Keys == UrlSet(ws) && forall u :: u in results ==> results[u] == healthy(u)
    ensures r == Refreshed(ws, healthy)
    ensures results.Keys == UrlSet(r)
    ensures forall i :: 0 <= i < |r| ==> results[r[i].url] == r[i].active
  {
    RefreshedIs(ws, healthy, r);
    UrlSetSameUrls(r, ws);
    forall i | 0 <= i < |r| ensures results[r[i].url] == r[i].active {
      assert r[i].url in UrlSet(r);
    }
  }

  // ---------------------------------------------------------------------------
  // Scenarios of backend/main_test.go

  /** Two healthy endpoints come up in insertion order; after the first fails its probe, Next fails over to the second. */
  method RotationAndFailover(a: string, b: string) returns (first: string, second: string, third: string, listed: seq<Worker>)
    requires a != "" && b != "" && a != b
    ensures first == a && second == b && third == b
    ensures listed == [Worker(a, false), Worker(b, true)]
  {
    var m := new WorkerManager();
    var up := (u: string) => true;
    var e1 := m.Add(a, up, true);
    assert !HasUrl([Worker(a, true)], b);
    var e2 := m.Add(b, up, true);
    ghost var both := [Worker(a, true), Worker(b, true)];
    assert m.workers == both;
    var found;
    SelectAllActive(both, 0);
    first, found := m.Next();
    assert first == a && m.index == 1;
    SelectAllActive(both, 1);
    assert Select(both, 1) == Pick(b, true, 0);
    second, found := m.Next();
    assert second == b && m.index == 0;
    var down := (u: string) => u != a;
    m.CheckAll(down, true);
    RefreshedAt(both, down, 0);
    RefreshedAt(both, down, 1);
    ghost var failed := [Worker(a, false), Worker(b, true)];
    assert m.workers == failed;
    assert Scan(failed, 0, 1) == Some(1);
    assert Scan(failed, 0, 0) == Some(1);
    assert Select(failed, 0) == Pick(b, true, 0);
    third, found := m.Next();
    assert third == b;
    listed := m.List();
  }

  /** An endpoint added through a file-backed pool is what a second pool loads from the same file. */
  method PersistenceRoundTrip(path: string, u: string) returns (err: Option<WorkerError>, loaded: seq<Worker>)
    requires path != "" && u != ""
    ensures err == None && loaded == [Worker(u, true)]
  {
    var m := new WorkerManager();
    var _ := m.Load(path, Missing);
    err := m.Add(u, (x: string) => true, true);
    var m2 := new WorkerManager();
    var _ := m2.Load(path, Decoded(m.stored));
    loaded := m2.List();
  }
}
