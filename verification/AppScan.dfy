/** The process scanner's cache (crates/agent/src/app_scan.rs): details are read once per process,
    recognised by pid, start time and name. */
module AppScan {
  import opened Wrappers

  datatype Stat = Stat(ppid: nat, startTicks: nat, comm: string)

  /** What the costly files of a process say; `argv` is empty for kernel threads and zombies. */
  datatype Details = Details(uid: nat, exe: Option<string>, argv: seq<string>, cgroup: string,
                             desktopFile: Option<string>, gioPid: Option<nat>)

  /** `details` is absent for a process that exits while it is read. */
  datatype Proc = Proc(stat: Stat, details: Option<Details>)

  /** One look at the process table, by pid. */
  type Snapshot = map<nat, Proc>

  datatype ProcInfo = ProcInfo(pid: nat, ppid: nat, startTicks: nat, comm: string, details: Details)

  /** `info` is absent for processes not worth the details. */
  datatype Cached = Cached(startTicks: nat, comm: string, info: Option<ProcInfo>)

  type Cache = map<nat, Cached>

  // ---- Specification ----------------------------------------------------------------------

  function InfoOf(pid: nat, stat: Stat, d: Details): ProcInfo { ProcInfo(pid, stat.ppid, stat.startTicks, stat.comm, d) }

  function ReadFull(pid: nat, p: Proc, uids: set<nat>): Option<Cached> {
    match p.details
    case None => None
    case Some(d) =>
      Some(Cached(p.stat.startTicks, p.stat.comm, if d.uid in uids && d.argv != [] then Some(InfoOf(pid, p.stat, d)) else None))
  }

  predicate SameProcess(startTicks: nat, comm: string, stat: Stat) { startTicks == stat.startTicks && comm == stat.comm }

  /** What the scanner remembers of a process after looking at it. */
  function Looked(cache: Cache, pid: nat, p: Proc, uids: set<nat>): Option<Cached> {
    if pid in cache && SameProcess(cache[pid].startTicks, cache[pid].comm, p.stat) then
      Some(cache[pid].(info := if cache[pid].info.Some? then Some(cache[pid].info.value.(ppid := p.stat.ppid)) else None))
    else ReadFull(pid, p, uids)
  }

  function Rescanned(cache: Cache, snapshot: Snapshot, uids: set<nat>): Cache {
    map pid | pid in snapshot && Looked(cache, pid, snapshot[pid], uids).Some? :: Looked(cache, pid, snapshot[pid], uids).value
  }

  function Output(cache: Cache, uids: set<nat>): map<nat, ProcInfo> {
    map pid | pid in cache && cache[pid].info.Some? && cache[pid].info.value.details.uid in uids :: cache[pid].info.value
  }

  /** What a scanner without a cache returns. */
  function FreshScan(snapshot: Snapshot, uids: set<nat>): map<nat, ProcInfo> {
    map pid | pid in snapshot && snapshot[pid].details.Some? && snapshot[pid].details.value.uid in uids
              && snapshot[pid].details.value.argv != []
      :: InfoOf(pid, snapshot[pid].stat, snapshot[pid].details.value)
  }

  // ---- The class --------------------------------------------------------------------------

  class ProcScanner {
    var cache: Cache

    constructor ()
      ensures cache == map[]
    {
      cache := map[];
    }

    /** The full read of a process not seen before; `None` if it exits meanwhile. */
    method ReadAll(pid: nat, p: Proc, uids: set<nat>) returns (entry: Option<Cached>)
      ensures entry == ReadFull(pid, p, uids)
    {
      if p.details.None? { return None; }
      var d := p.details.value;
      var cached := Cached(p.stat.startTicks, p.stat.comm, None);
      if d.uid !in uids { return Some(cached); }
      if d.argv == [] { return Some(cached); }
      return Some(cached.(info := Some(ProcInfo(pid, p.stat.ppid, p.stat.startTicks, p.stat.comm, d))));
    }

    /** Takes the process's entry out of the cache if it is still the same process, with its current
        parent; reads it in full otherwise. */
    method TakeEntry(pid: nat, p: Proc, uids: set<nat>) returns (entry: Option<Cached>)
      modifies this
      ensures entry == Looked(old(cache), pid, p, uids) && cache == old(cache) - {pid}
    {
      if pid in cache {
        var c := cache[pid];
        cache := cache - {pid};
        if c.startTicks == p.stat.startTicks && c.comm == p.stat.comm {
          if c.info.Some? { c := c.(info := Some(c.info.value.(ppid := p.stat.ppid))); }
          return Some(c);
        }
      }
      entry := ReadAll(pid, p, uids);
    }

    /** The current processes of `uids`; an unreadable process table leaves the cache alone. */
    method Scan(table: Option<Snapshot>, uids: set<nat>) returns (out: map<nat, ProcInfo>)
      modifies this
      ensures table.None? ==> cache == old(cache) && out == map[]
      ensures table.Some? ==> cache == Rescanned(old(cache), table.value, uids) && out == Output(cache, uids)
    {
      if table.None? { return map[]; }
      var snapshot := table.value;
      var seen: Cache := map[];
      var todo := snapshot.Keys;
      ghost var start := cache;
      while todo != {}
        invariant todo <= snapshot.Keys && cache == start - (snapshot.Keys - todo)
        invariant forall pid :: pid in seen <==> pid in snapshot && pid !in todo && Looked(start, pid, snapshot[pid], uids).Some?
        invariant forall pid :: pid in seen ==> Some(seen[pid]) == Looked(start, pid, snapshot[pid], uids)
        decreases todo
      {
        var pid :| pid in todo;
        assert pid in cache <==> pid in start;
        var entry := TakeEntry(pid, snapshot[pid], uids);
        if entry.Some? { seen := seen[pid := entry.value]; }
        todo := todo - {pid};
      }
      cache := seen;
      out := Output(cache, uids);
    }
  }

  // ---- Every run --------------------------------------------------------------------------

  /** A process that keeps pid, start time and name keeps its details. */
  ghost predicate Stable(before: Snapshot, after: Snapshot) {
    forall pid :: (pid in before && pid in after && SameProcess(before[pid].stat.startTicks, before[pid].stat.comm, after[pid].stat))
      ==> after[pid].details == before[pid].details
  }

  /** The cache is about the processes of `snapshot`: each entry has its identity, and its details
      unless they were skipped. */
  ghost predicate CacheFits(cache: Cache, snapshot: Snapshot) {
    forall pid :: pid in cache ==>
      && pid in snapshot && snapshot[pid].details.Some?
      && SameProcess(cache[pid].startTicks, cache[pid].comm, snapshot[pid].stat)
      && (cache[pid].info.Some? ==> snapshot[pid].details.value.argv != []
                                    && cache[pid].info.value == InfoOf(pid, snapshot[pid].stat, snapshot[pid].details.value))
  }

  /** The details of a process the scanner remembers were skipped although there are some. */
  predicate Blind(cache: Cache, snapshot: Snapshot, pid: nat) {
    pid in cache && cache[pid].info.None? && pid in snapshot && snapshot[pid].details.Some? && snapshot[pid].details.value.argv != []
  }

  lemma RescanFits(cache: Cache, before: Snapshot, after: Snapshot, uids: set<nat>)
    requires CacheFits(cache, before) && Stable(before, after)
    ensures CacheFits(Rescanned(cache, after, uids), after)
  {}

  lemma BlindAfterRescan(cache: Cache, before: Snapshot, after: Snapshot, uids: set<nat>)
    requires CacheFits(cache, before) && Stable(before, after)
    ensures var cache' := Rescanned(cache, after, uids);
            Output(cache', uids) == FreshScan(after, uids)
            <==> forall pid :: Blind(cache', after, pid) ==> after[pid].details.value.uid !in uids
  {
    var cache' := Rescanned(cache, after, uids);
    RescanFits(cache, before, after, uids);
    var out, full := Output(cache', uids), FreshScan(after, uids);
    forall pid | pid in out ensures pid in full && full[pid] == out[pid] {}
    forall pid | pid in full && pid !in out ensures Blind(cache', after, pid) {
      assert Looked(cache, pid, after[pid], uids).Some?;
    }
    forall pid | Blind(cache', after, pid) && after[pid].details.value.uid in uids ensures pid in full && pid !in out {}
  }

  /** Before the scan: the cache holds a process of `uids`, still the same one, without its details. */
  predicate Overlooks(cache: Cache, snapshot: Snapshot, uids: set<nat>, pid: nat) {
    && pid in snapshot && pid in cache && cache[pid].info.None?
    && SameProcess(cache[pid].startTicks, cache[pid].comm, snapshot[pid].stat)
    && snapshot[pid].details.Some? && snapshot[pid].details.value.argv != [] && snapshot[pid].details.value.uid in uids
  }

  /** A scan returns what a fresh one would exactly when the cache it starts from does not hold a
      process of the users asked for without its details: new parents and reused pids are noticed. */
  lemma ScanIsExact(cache: Cache, before: Snapshot, after: Snapshot, uids: set<nat>)
    requires CacheFits(cache, before) && Stable(before, after)
    ensures Output(Rescanned(cache, after, uids), uids) == FreshScan(after, uids)
        <==> forall pid :: !Overlooks(cache, after, uids, pid)
  {
    var cache' := Rescanned(cache, after, uids);
    BlindAfterRescan(cache, before, after, uids);
    forall pid ensures Overlooks(cache, after, uids, pid) <==> Blind(cache', after, pid) && after[pid].details.value.uid in uids {
      if pid in after && pid in cache' { assert Some(cache'[pid]) == Looked(cache, pid, after[pid], uids); }
    }
  }

  /** One scan after another: the table and the managed users at each. */
  datatype Look = Look(snapshot: Snapshot, uids: set<nat>)

  function CacheAfter(looks: seq<Look>, n: nat): Cache
    requires n <= |looks|
  {
    if n == 0 then map[] else Rescanned(CacheAfter(looks, n - 1), looks[n - 1].snapshot, looks[n - 1].uids)
  }

  /** Details hold still between scans and no user becomes managed. */
  ghost predicate Calm(looks: seq<Look>) {
    forall i :: 0 < i < |looks| ==> Stable(looks[i - 1].snapshot, looks[i].snapshot) && looks[i].uids <= looks[i - 1].uids
  }

  /** Details hold still between scans, whoever is managed. */
  ghost predicate Steady(looks: seq<Look>) {
    forall i :: 0 < i < |looks| ==> Stable(looks[i - 1].snapshot, looks[i].snapshot)
  }

  /** The process is in both tables. */
  predicate Stays(before: Snapshot, after: Snapshot, pid: nat) {
    pid in before && pid in after && SameProcess(before[pid].stat.startTicks, before[pid].stat.comm, after[pid].stat)
  }

  /** The look that saw the process of look `n` first, and every look since. */
  function FirstLook(looks: seq<Look>, n: nat, pid: nat): (j: nat)
    requires n < |looks|
    ensures j <= n
  {
    if n > 0 && Stays(looks[n - 1].snapshot, looks[n].snapshot, pid) then FirstLook(looks, n - 1, pid) else n
  }

  lemma {:induction false} FirstLookIsFirst(looks: seq<Look>, n: nat, pid: nat)
    requires n < |looks|
    ensures var j := FirstLook(looks, n, pid);
            && (forall i :: j < i <= n ==> Stays(looks[i - 1].snapshot, looks[i].snapshot, pid))
            && (j > 0 ==> !Stays(looks[j - 1].snapshot, looks[j].snapshot, pid))
  {
    if n > 0 && Stays(looks[n - 1].snapshot, looks[n].snapshot, pid) { FirstLookIsFirst(looks, n - 1, pid); }
  }

  lemma {:induction false} CacheFitsRun(looks: seq<Look>, n: nat)
    requires 0 < n <= |looks| && Steady(looks)
    ensures CacheFits(CacheAfter(looks, n), looks[n - 1].snapshot)
  {
    if n == 1 {
      RescanFits(map[], map[], looks[0].snapshot, looks[0].uids);
      assert CacheAfter(looks, 0) == map[];
    } else {
      CacheFitsRun(looks, n - 1);
      RescanFits(CacheAfter(looks, n - 1), looks[n - 2].snapshot, looks[n - 1].snapshot, looks[n - 1].uids);
    }
  }

  /** The scanner knows the details of a process exactly if its user was managed when it was first seen. */
  lemma {:induction false} DetailsAreFromTheFirstLook(looks: seq<Look>, n: nat, pid: nat)
    requires n < |looks| && Steady(looks)
    requires pid in looks[n].snapshot && looks[n].snapshot[pid].details.Some? && looks[n].snapshot[pid].details.value.argv != []
    ensures var cache := CacheAfter(looks, n + 1);
            pid in cache && (cache[pid].info.Some? <==> looks[n].snapshot[pid].details.value.uid in looks[FirstLook(looks, n, pid)].uids)
  {
    var cache, now := CacheAfter(looks, n), looks[n];
    if n > 0 {
      CacheFitsRun(looks, n);
      assert Stable(looks[n - 1].snapshot, now.snapshot);
      if Stays(looks[n - 1].snapshot, now.snapshot, pid) { DetailsAreFromTheFirstLook(looks, n - 1, pid); }
    }
    assert Looked(cache, pid, now.snapshot[pid], now.uids).Some?;
  }

  /** Over every steady run: a scan returns what a fresh one would, except exactly the processes whose
      user was not managed when they were first seen. */
  lemma MissedExactly(looks: seq<Look>, n: nat, pid: nat)
    requires n < |looks| && Steady(looks)
    ensures var out, full := Output(CacheAfter(looks, n + 1), looks[n].uids), FreshScan(looks[n].snapshot, looks[n].uids);
            && (pid in out <==> pid in full && full[pid].details.uid in looks[FirstLook(looks, n, pid)].uids)
            && (pid in out ==> out[pid] == full[pid])
  {
    CacheFitsRun(looks, n + 1);
    if pid in FreshScan(looks[n].snapshot, looks[n].uids) { DetailsAreFromTheFirstLook(looks, n, pid); }
  }

  /** A scan returns what a fresh one would exactly when every process was first seen while its user
      was managed. */
  lemma RunIsExact(looks: seq<Look>, n: nat)
    requires n < |looks| && Steady(looks)
    ensures var full := FreshScan(looks[n].snapshot, looks[n].uids);
            Output(CacheAfter(looks, n + 1), looks[n].uids) == full
            <==> forall pid :: pid in full ==> full[pid].details.uid in looks[FirstLook(looks, n, pid)].uids
  {
    var out, full := Output(CacheAfter(looks, n + 1), looks[n].uids), FreshScan(looks[n].snapshot, looks[n].uids);
    forall pid | pid in out ensures pid in full && out[pid] == full[pid] { MissedExactly(looks, n, pid); }
    forall pid | pid in full ensures pid in out <==> full[pid].details.uid in looks[FirstLook(looks, n, pid)].uids {
      MissedExactly(looks, n, pid);
    }
  }

  lemma {:induction false} UidsShrink(looks: seq<Look>, n: nat)
    requires n < |looks| && Calm(looks)
    ensures forall j :: 0 <= j <= n ==> looks[n].uids <= looks[j].uids
  {
    if n > 0 { UidsShrink(looks, n - 1); }
  }

  /** Over every calm run, each scan returns what a scanner without a cache would. */
  lemma ScanEqualsFreshScan(looks: seq<Look>, n: nat)
    requires 0 < n <= |looks| && Calm(looks)
    ensures Output(CacheAfter(looks, n), looks[n - 1].uids) == FreshScan(looks[n - 1].snapshot, looks[n - 1].uids)
  {
    UidsShrink(looks, n - 1);
    RunIsExact(looks, n - 1);
  }

  /** When a user becomes managed, what they already run is missed: only a fresh scan sees it. */
  lemma NewlyManagedIsMissed(pid: nat, stat: Stat, d: Details)
    requires d.argv != []
    ensures var table := map[pid := Proc(stat, Some(d))];
            var looks := [Look(table, {}), Look(table, {d.uid})];
            Output(CacheAfter(looks, 2), {d.uid}) == map[] && pid in FreshScan(table, {d.uid})
  {
    var table := map[pid := Proc(stat, Some(d))];
    var looks := [Look(table, {}), Look(table, {d.uid})];
    assert CacheAfter(looks, 1) == map[pid := Cached(stat.startTicks, stat.comm, None)];
  }
}
