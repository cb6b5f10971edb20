/**
 * The in-memory store of asynchronous extraction jobs. Each job is keyed by
 * its id and carries a status (pending, processing, completed, failed), the
 * extraction result or the error, its creation and last-update times and the
 * uploaded file's name. Entries untouched for an hour after finishing are
 * evicted when a new job is created. When a persistence directory is set,
 * finished jobs are also written to disk, and lookups and listings fall back
 * to the disk copies.
 *
 * Times are the readings of the clock at each call and ids are the uuid the
 * caller drew; both are parameters here.
 */
module JobStore {
  import opened Wrappers
  import opened Sorting
  import Schema

  /** Entries finished more than this many seconds ago are evicted. */
  const InMemoryTtlSeconds: real := 3600.0

  datatype JobStatus = Pending | Processing | Completed | Failed

  function StatusName(s: JobStatus): (name: string)
    ensures name != []
  {
    match s
    case Pending => "pending"
    case Processing => "processing"
    case Completed => "completed"
    case Failed => "failed"
  }

  /** The four status names are distinct. */
  lemma StatusNameInjective(a: JobStatus, b: JobStatus)
    ensures StatusName(a) == StatusName(b) <==> a == b
  {
  }

  /** What the store keeps about one job; the result is the dumped extraction result. */
  datatype JobEntry = JobEntry(
    status: JobStatus,
    result: Option<Schema.ExtractionResult>,
    error: Option<string>,
    createdAt: real,
    updatedAt: real,
    filename: Option<string>)

  /** A fresh entry created at `now`. */
  function NewEntry(now: real): JobEntry {
    JobEntry(Pending, None, None, now, now, None)
  }

  /** An entry eviction removes: finished, and last updated more than the TTL before `now`. */
  predicate Stale(e: JobEntry, now: real) {
    now - e.updatedAt > InMemoryTtlSeconds && (e.status == Completed || e.status == Failed)
  }

  /** The jobs that survive eviction at `now`. */
  function Evicted(jobs: map<string, JobEntry>, now: real): (m: map<string, JobEntry>)
    ensures forall k :: k in m <==> k in jobs && !Stale(jobs[k], now)
    ensures forall k :: k in m ==> m[k] == jobs[k]
  {
    map k | k in jobs && !Stale(jobs[k], now) :: jobs[k]
  }

  /** Eviction never removes a job that is pending or processing. */
  lemma EvictionKeepsUnfinished(jobs: map<string, JobEntry>, now: real, id: string)
    requires id in jobs && (jobs[id].status == Pending || jobs[id].status == Processing)
    ensures id in Evicted(jobs, now) && Evicted(jobs, now)[id] == jobs[id]
  {
  }

  /** The ids of a sequence, kept in order, whose entries survive eviction. */
  function Survivors(ids: seq<string>, jobs: map<string, JobEntry>, now: real): (r: seq<string>)
    requires forall i :: 0 <= i < |ids| ==> ids[i] in jobs
    ensures forall k :: k in r <==> k in ids && !Stale(jobs[k], now)
  {
    if ids == [] then []
    else
      assert forall k :: k in ids <==> k == ids[0] || k in ids[1..];
      (if Stale(jobs[ids[0]], now) then [] else [ids[0]]) + Survivors(ids[1..], jobs, now)
  }

  /** The stale ids among `ids`, in order. */
  function StaleIds(ids: seq<string>, jobs: map<string, JobEntry>, now: real): (r: seq<string>)
    requires forall i :: 0 <= i < |ids| ==> ids[i] in jobs
    ensures forall k :: k in r <==> k in ids && Stale(jobs[k], now)
  {
    if ids == [] then []
    else
      assert forall k :: k in ids <==> k == ids[0] || k in ids[1..];
      (if Stale(jobs[ids[0]], now) then [ids[0]] else []) + StaleIds(ids[1..], jobs, now)
  }

  predicate Distinct(s: seq<string>) {
    forall i, j :: 0 <= i < j < |s| ==> s[i] != s[j]
  }

  /** The sequence with every occurrence of x removed. */
  function Without(s: seq<string>, x: string): (r: seq<string>)
    ensures forall k :: k in r <==> k in s && k != x
  {
    if s == [] then []
    else
      var rest := Without(s[1..], x);
      assert forall k :: k in s <==> k == s[0] || k in s[1..];
      if s[0] == x then rest else [s[0]] + rest
  }

  /** Removing an element keeps a sequence distinct. */
  lemma {:induction false} WithoutDistinct(s: seq<string>, x: string)
    requires Distinct(s)
    ensures Distinct(Without(s, x))
  {
    if s != [] {
      assert Distinct(s[1..]);
      WithoutDistinct(s[1..], x);
      var rest := Without(s[1..], x);
      if s[0] != x {
        assert s[0] !in s[1..];
        assert s[0] !in rest;
        var r := [s[0]] + rest;
        forall i, j | 0 <= i < j < |r| ensures r[i] != r[j] {
          if i == 0 {
            assert r[j] == rest[j - 1];
            assert r[j] in rest;
          } else {
            assert r[i] == rest[i - 1] && r[j] == rest[j - 1];
          }
        }
      }
    }
  }

  /** A distinct sequence has as many elements as the set of its elements. */
  lemma {:induction false} DistinctCardinality(s: seq<string>)
    requires Distinct(s)
    ensures |set k | k in s| == |s|
  {
    if s != [] {
      var init := s[..|s| - 1];
      var last := s[|s| - 1];
      DistinctCardinality(init);
      assert (set k | k in s) == (set k | k in init) + {last};
      assert last !in (set k | k in init);
    }
  }

  /** One line of a job listing: no result and no error. */
  datatype JobSummary = JobSummary(jobId: string, status: string, createdAt: real, updatedAt: real, filename: Option<string>)

  function SummaryOf(id: string, e: JobEntry): JobSummary {
    JobSummary(id, StatusName(e.status), e.createdAt, e.updatedAt, e.filename)
  }

  /** A listing filter: none, or the empty name, lets everything through. */
  predicate Passes(filter: Option<string>, status: string) {
    filter.None? || filter.value == [] || status == filter.value
  }

  /** The summaries of the in-memory jobs that pass the filter, in id order. */
  function MemorySummaries(ids: seq<string>, jobs: map<string, JobEntry>, filter: Option<string>): seq<JobSummary>
    requires forall i :: 0 <= i < |ids| ==> ids[i] in jobs
  {
    if ids == [] then []
    else
      var last := ids[|ids| - 1];
      MemorySummaries(ids[..|ids| - 1], jobs, filter)
        + (if Passes(filter, StatusName(jobs[last].status)) then [SummaryOf(last, jobs[last])] else [])
  }

  /** The ids a sequence of summaries mentions. */
  function SummaryIds(s: seq<JobSummary>): (ids: set<string>)
    ensures forall k :: k in ids <==> exists i :: 0 <= i < |s| && s[i].jobId == k
  {
    set i | 0 <= i < |s| :: s[i].jobId
  }

  /**
   * The summaries of the disk copies in directory-listing order: ids listed
   * in memory are skipped, and so are files that cannot be read (ids absent
   * from `disk`).
   */
  function DiskSummaries(listing: seq<string>, skip: set<string>, disk: map<string, JobEntry>, filter: Option<string>): seq<JobSummary>
  {
    if listing == [] then []
    else
      var last := listing[|listing| - 1];
      DiskSummaries(listing[..|listing| - 1], skip, disk, filter)
        + (if last !in skip && last in disk && Passes(filter, StatusName(disk[last].status))
           then [SummaryOf(last, disk[last])] else [])
  }

  /** Newest first: Python's sorted(..., reverse=True) is stable, so ties keep listing order. */
  function NewestFirst(s: JobSummary): (real, real) { (-s.createdAt, 0.0) }

  /** What list_jobs returns. */
  function JobList(ids: seq<string>, jobs: map<string, JobEntry>, persist: bool, disk: map<string, JobEntry>,
                   filter: Option<string>, listing: seq<string>): seq<JobSummary>
    requires forall i :: 0 <= i < |ids| ==> ids[i] in jobs
  {
    var memory := MemorySummaries(ids, jobs, filter);
    var fromDisk := if persist then DiskSummaries(listing, SummaryIds(memory), disk, filter) else [];
    SortBy(memory + fromDisk, NewestFirst)
  }

  /** Every in-memory summary passes the filter and describes the entry with its id. */
  lemma {:induction false} MemorySummariesFacts(ids: seq<string>, jobs: map<string, JobEntry>, filter: Option<string>)
    requires forall i :: 0 <= i < |ids| ==> ids[i] in jobs
    ensures forall s :: s in MemorySummaries(ids, jobs, filter) <==>
      s.jobId in ids && Passes(filter, StatusName(jobs[s.jobId].status)) && s == SummaryOf(s.jobId, jobs[s.jobId])
  {
    if ids != [] {
      var init := ids[..|ids| - 1];
      var last := ids[|ids| - 1];
      MemorySummariesFacts(init, jobs, filter);
      assert forall k :: k in ids <==> k in init || k == last;
    }
  }

  /** Every disk summary passes the filter, was not skipped, and describes the disk copy. */
  lemma {:induction false} DiskSummariesFacts(listing: seq<string>, skip: set<string>, disk: map<string, JobEntry>, filter: Option<string>)
    ensures forall s :: s in DiskSummaries(listing, skip, disk, filter) <==>
      s.jobId in listing && s.jobId !in skip && s.jobId in disk
      && Passes(filter, StatusName(disk[s.jobId].status)) && s == SummaryOf(s.jobId, disk[s.jobId])
  {
    if listing != [] {
      var init := listing[..|listing| - 1];
      var last := listing[|listing| - 1];
      DiskSummariesFacts(init, skip, disk, filter);
      assert forall k :: k in listing <==> k in init || k == last;
    }
  }

  /** The ids listed from memory are exactly those of the in-memory jobs passing the filter. */
  lemma MemoryIds(ids: seq<string>, jobs: map<string, JobEntry>, filter: Option<string>)
    requires forall i :: 0 <= i < |ids| ==> ids[i] in jobs
    ensures forall k :: k in SummaryIds(MemorySummaries(ids, jobs, filter)) <==>
      k in ids && Passes(filter, StatusName(jobs[k].status))
  {
    var memory := MemorySummaries(ids, jobs, filter);
    MemorySummariesFacts(ids, jobs, filter);
    forall k ensures k in SummaryIds(memory) <==> k in ids && Passes(filter, StatusName(jobs[k].status)) {
      if k in SummaryIds(memory) {
        var i :| 0 <= i < |memory| && memory[i].jobId == k;
        assert memory[i] in memory;
      }
      if k in ids && Passes(filter, StatusName(jobs[k].status)) {
        assert SummaryOf(k, jobs[k]) in memory;
        var i :| 0 <= i < |memory| && memory[i] == SummaryOf(k, jobs[k]);
      }
    }
  }

  /** list_jobs lists newest first. */
  lemma JobListNewestFirst(ids: seq<string>, jobs: map<string, JobEntry>, persist: bool, disk: map<string, JobEntry>,
                           filter: Option<string>, listing: seq<string>)
    requires forall i :: 0 <= i < |ids| ==> ids[i] in jobs
    ensures var r := JobList(ids, jobs, persist, disk, filter, listing);
      forall i, j :: 0 <= i < j < |r| ==> r[i].createdAt >= r[j].createdAt
  {
    var memory := MemorySummaries(ids, jobs, filter);
    var fromDisk := if persist then DiskSummaries(listing, SummaryIds(memory), disk, filter) else [];
    SortByProperties(memory + fromDisk, NewestFirst);
  }

  /**
   * list_jobs holds exactly the summaries of the in-memory jobs passing the
   * filter and, when persisting, of the readable listed disk copies passing
   * the filter whose id was not already listed from memory.
   */
  lemma JobListMembers(ids: seq<string>, jobs: map<string, JobEntry>, persist: bool, disk: map<string, JobEntry>,
                       filter: Option<string>, listing: seq<string>)
    requires forall i :: 0 <= i < |ids| ==> ids[i] in jobs
    ensures var r := JobList(ids, jobs, persist, disk, filter, listing);
      forall s :: s in r <==>
        (s.jobId in ids && Passes(filter, StatusName(jobs[s.jobId].status)) && s == SummaryOf(s.jobId, jobs[s.jobId]))
        || (persist && s.jobId in listing && s.jobId in disk && s == SummaryOf(s.jobId, disk[s.jobId])
            && Passes(filter, s.status)
            && !(s.jobId in ids && Passes(filter, StatusName(jobs[s.jobId].status))))
  {
    var memory := MemorySummaries(ids, jobs, filter);
    var fromDisk := if persist then DiskSummaries(listing, SummaryIds(memory), disk, filter) else [];
    SortMembers(memory + fromDisk, NewestFirst);
    MemorySummariesFacts(ids, jobs, filter);
    DiskSummariesFacts(listing, SummaryIds(memory), disk, filter);
    MemoryIds(ids, jobs, filter);
  }

  /** Every line list_jobs returns passes the filter. */
  lemma JobListFiltered(ids: seq<string>, jobs: map<string, JobEntry>, persist: bool, disk: map<string, JobEntry>,
                        filter: Option<string>, listing: seq<string>)
    requires forall i :: 0 <= i < |ids| ==> ids[i] in jobs
    ensures forall s :: s in JobList(ids, jobs, persist, disk, filter, listing) ==> Passes(filter, s.status)
  {
    JobListMembers(ids, jobs, persist, disk, filter, listing);
  }

  predicate DistinctIds(m: seq<JobSummary>) {
    forall i, j :: 0 <= i < j < |m| ==> m[i].jobId != m[j].jobId
  }

  /** Ids listed from memory never repeat. */
  lemma {:induction false} MemoryIdsDistinct(ids: seq<string>, jobs: map<string, JobEntry>, filter: Option<string>)
    requires forall i :: 0 <= i < |ids| ==> ids[i] in jobs
    requires Distinct(ids)
    ensures DistinctIds(MemorySummaries(ids, jobs, filter))
  {
    if ids != [] {
      var init := ids[..|ids| - 1];
      var last := ids[|ids| - 1];
      MemoryIdsDistinct(init, jobs, filter);
      MemorySummariesFacts(init, jobs, filter);
      var m0 := MemorySummaries(init, jobs, filter);
      assert last !in init;
      forall i | 0 <= i < |m0| ensures m0[i].jobId != last {
        assert m0[i] in m0;
      }
      var m := MemorySummaries(ids, jobs, filter);
      if Passes(filter, StatusName(jobs[last].status)) {
        assert m == m0 + [SummaryOf(last, jobs[last])];
        forall i, j | 0 <= i < j < |m| ensures m[i].jobId != m[j].jobId {
          if j == |m0| {
            assert m[j].jobId == last && m[i] == m0[i];
          } else {
            assert m[i] == m0[i] && m[j] == m0[j];
          }
        }
      } else {
        assert m == m0;
      }
    }
  }

  /**
   * The job store. `ids` lists the in-memory jobs in insertion order (the
   * iteration order of the Python dict), `jobs` maps each to its entry, and
   * `disk` holds the persisted copies when `persist` is set.
   */
  class Store {
    var ids: seq<string>
    var jobs: map<string, JobEntry>
    var disk: map<string, JobEntry>
    const persist: bool

    ghost predicate Valid()
      reads this
    {
      && Distinct(ids)
      && (forall k :: k in jobs <==> k in ids)
      && (!persist ==> disk == map[])
    }

    /**
     * A store with no jobs in memory. With a (non-empty) persistence
     * directory, the job files already in it are the disk copies.
     */
    constructor(persistDir: Option<string>, existing: map<string, JobEntry>)
      ensures Valid()
      ensures persist <==> persistDir.Some? && persistDir.value != []
      ensures ids == [] && jobs == map[]
      ensures disk == if persist then existing else map[]
    {
      ids := [];
      jobs := map[];
      persist := persistDir.Some? && persistDir.value != [];
      disk := if persistDir.Some? && persistDir.value != [] then existing else map[];
    }

    /** len(store): the number of jobs in memory. */
    function Len(): (n: nat)
      reads this
      requires Valid()
      ensures n == |ids|
    {
      DistinctCardinality(ids);
      assert jobs.Keys == set k | k in ids;
      |jobs.Keys|
    }

    /** get_job: the in-memory entry, else (when persisting) the disk copy, else nothing. */
    function GetJob(jobId: string): (r: Option<JobEntry>)
      reads this
      ensures jobId in jobs ==> r == Some(jobs[jobId])
      ensures jobId !in jobs ==> (r.Some? <==> persist && jobId in disk)
      ensures jobId !in jobs && r.Some? ==> r.value == disk[jobId]
    {
      if jobId in jobs then Some(jobs[jobId])
      else if persist && jobId in disk then Some(disk[jobId])
      else None
    }

    /** _evict_old: collect the stale ids, then delete them one by one. */
    method EvictOld(now: real)
      requires Valid()
      modifies this
      ensures Valid()
      ensures jobs == Evicted(old(jobs), now)
      ensures ids == Survivors(old(ids), old(jobs), now)
      ensures disk == old(disk)
    {
      ghost var ids0, jobs0 := ids, jobs;
      var stale := StaleIds(ids, jobs, now);
      DeleteAll(stale);
      SurvivorsOfStale(ids0, jobs0, now, stale);
      EvictedByDeletion(jobs0, ids0, jobs, ids, now);
    }

    /** for jid in stale: del self._jobs[jid] */
    method DeleteAll(stale: seq<string>)
      requires Valid()
      modifies this
      ensures Valid()
      ensures ids == SurvivorsOf(old(ids), stale)
      ensures forall k :: k in jobs ==> k in old(jobs) && jobs[k] == old(jobs)[k]
      ensures disk == old(disk)
    {
      ghost var ids0 := ids;
      SurvivorsOfNone(ids0);
      var i := 0;
      while i < |stale|
        invariant 0 <= i <= |stale|
        invariant Valid() && disk == old(disk)
        invariant forall k :: k in jobs ==> k in old(jobs) && jobs[k] == old(jobs)[k]
        invariant ids == SurvivorsOf(ids0, stale[..i])
      {
        assert stale[..i + 1] == stale[..i] + [stale[i]];
        SurvivorsOfSnoc(ids0, stale[..i], stale[i]);
        Delete(stale[i]);
        i := i + 1;
      }
      assert stale[..|stale|] == stale;
    }

    /** del self._jobs[id] */
    method Delete(id: string)
      requires Valid()
      modifies this
      ensures Valid()
      ensures jobs == old(jobs) - {id}
      ensures ids == Without(old(ids), id)
      ensures disk == old(disk)
    {
      WithoutDistinct(ids, id);
      jobs := jobs - {id};
      ids := Without(ids, id);
    }

    /** create_job: evict, then add a pending entry under the new id. */
    method CreateJob(jobId: string, evictAt: real, now: real) returns (id: string)
      requires Valid()
      modifies this
      ensures Valid()
      ensures id == jobId
      ensures jobs == Evicted(old(jobs), evictAt)[jobId := NewEntry(now)]
      ensures var kept := Survivors(old(ids), old(jobs), evictAt);
        ids == if jobId in kept then kept else kept + [jobId]
      ensures disk == old(disk)
    {
      EvictOld(evictAt);
      jobs := jobs[jobId := NewEntry(now)];
      if jobId !in ids {
        ids := ids + [jobId];
      }
      id := jobId;
    }

    /** set_processing: an unknown id changes nothing; otherwise status and update time change. */
    method SetProcessing(jobId: string, now: real)
      requires Valid()
      modifies this
      ensures Valid()
      ensures jobs == if jobId in old(jobs)
        then old(jobs)[jobId := old(jobs)[jobId].(status := Processing, updatedAt := now)]
        else old(jobs)
      ensures ids == old(ids) && disk == old(disk)
    {
      if jobId in jobs {
        jobs := jobs[jobId := jobs[jobId].(status := Processing, updatedAt := now)];
      }
    }

    /** set_completed: status, result and update time change, and the entry is persisted. */
    method SetCompleted(jobId: string, result: Schema.ExtractionResult, now: real)
      requires Valid()
      modifies this
      ensures Valid()
      ensures jobs == if jobId in old(jobs)
        then old(jobs)[jobId := old(jobs)[jobId].(status := Completed, result := Some(result), updatedAt := now)]
        else old(jobs)
      ensures disk == if jobId in old(jobs) && persist then old(disk)[jobId := jobs[jobId]] else old(disk)
      ensures ids == old(ids)
    {
      if jobId in jobs {
        var entry := jobs[jobId].(status := Completed, result := Some(result), updatedAt := now);
        jobs := jobs[jobId := entry];
        PersistToDisk(jobId, entry);
      }
    }

    /** set_failed: status, error and update time change, and the entry is persisted. */
    method SetFailed(jobId: string, error: string, now: real)
      requires Valid()
      modifies this
      ensures Valid()
      ensures jobs == if jobId in old(jobs)
        then old(jobs)[jobId := old(jobs)[jobId].(status := Failed, error := Some(error), updatedAt := now)]
        else old(jobs)
      ensures disk == if jobId in old(jobs) && persist then old(disk)[jobId := jobs[jobId]] else old(disk)
      ensures ids == old(ids)
    {
      if jobId in jobs {
        var entry := jobs[jobId].(status := Failed, error := Some(error), updatedAt := now);
        jobs := jobs[jobId := entry];
        PersistToDisk(jobId, entry);
      }
    }

    /** set_filename: only the file name changes; the update time does not. */
    method SetFilename(jobId: string, filename: string)
      requires Valid()
      modifies this
      ensures Valid()
      ensures jobs == if jobId in old(jobs)
        then old(jobs)[jobId := old(jobs)[jobId].(filename := Some(filename))]
        else old(jobs)
      ensures ids == old(ids) && disk == old(disk)
    {
      if jobId in jobs {
        jobs := jobs[jobId := jobs[jobId].(filename := Some(filename))];
      }
    }

    /** _persist_to_disk: without a persistence directory, nothing is written. */
    method PersistToDisk(jobId: string, entry: JobEntry)
      requires Valid()
      modifies this
      ensures Valid()
      ensures disk == if persist then old(disk)[jobId := entry] else old(disk)
      ensures ids == old(ids) && jobs == old(jobs)
    {
      if persist {
        disk := disk[jobId := entry];
      }
    }

    /**
     * list_jobs: the in-memory summaries in insertion order, then the disk
     * copies not already listed, then a stable sort newest first.
     */
    method ListJobs(filter: Option<string>, listing: seq<string>) returns (summaries: seq<JobSummary>)
      requires Valid()
      ensures summaries == JobList(ids, jobs, persist, disk, filter, listing)
    {
      var memory := CollectMemory(ids, jobs, filter);
      var all := memory + [];
      if persist {
        var fromDisk := CollectDisk(listing, SummaryIds(memory), disk, filter);
        all := memory + fromDisk;
      }
      summaries := SortBy(all, NewestFirst);
    }
  }

  /** The first loop of list_jobs: the in-memory jobs passing the filter, in insertion order. */
  method CollectMemory(ids: seq<string>, jobs: map<string, JobEntry>, filter: Option<string>)
    returns (memory: seq<JobSummary>)
    requires forall i :: 0 <= i < |ids| ==> ids[i] in jobs
    ensures memory == MemorySummaries(ids, jobs, filter)
  {
    memory := [];
    var i := 0;
    while i < |ids|
      invariant 0 <= i <= |ids|
      invariant memory == MemorySummaries(ids[..i], jobs, filter)
    {
      assert ids[..i + 1][..i] == ids[..i];
      var entry := jobs[ids[i]];
      if Passes(filter, StatusName(entry.status)) {
        memory := memory + [SummaryOf(ids[i], entry)];
      }
      i := i + 1;
    }
    assert ids[..|ids|] == ids;
  }

  /** The disk scan of list_jobs: readable job files not listed from memory and passing the filter. */
  method CollectDisk(listing: seq<string>, skip: set<string>, disk: map<string, JobEntry>, filter: Option<string>)
    returns (fromDisk: seq<JobSummary>)
    ensures fromDisk == DiskSummaries(listing, skip, disk, filter)
  {
    fromDisk := [];
    var j := 0;
    while j < |listing|
      invariant 0 <= j <= |listing|
      invariant fromDisk == DiskSummaries(listing[..j], skip, disk, filter)
    {
      assert listing[..j + 1][..j] == listing[..j];
      var jid := listing[j];
      if jid !in skip && jid in disk && Passes(filter, StatusName(disk[jid].status)) {
        fromDisk := fromDisk + [SummaryOf(jid, disk[jid])];
      }
      j := j + 1;
    }
    assert listing[..|listing|] == listing;
  }

  /** The elements of `ids` not in `removed`, in order. */
  function SurvivorsOf(ids: seq<string>, removed: seq<string>): (r: seq<string>)
    ensures forall k :: k in r <==> k in ids && k !in removed
  {
    if ids == [] then []
    else
      assert forall k :: k in ids <==> k == ids[0] || k in ids[1..];
      (if ids[0] in removed then [] else [ids[0]]) + SurvivorsOf(ids[1..], removed)
  }

  lemma {:induction false} SurvivorsOfNone(ids: seq<string>)
    ensures SurvivorsOf(ids, []) == ids
  {
    if ids != [] {
      SurvivorsOfNone(ids[1..]);
    }
  }

  lemma {:induction false} SurvivorsOfSnoc(ids: seq<string>, removed: seq<string>, x: string)
    ensures SurvivorsOf(ids, removed + [x]) == Without(SurvivorsOf(ids, removed), x)
  {
    if ids != [] {
      var h := ids[0];
      SurvivorsOfSnoc(ids[1..], removed, x);
      var rest := SurvivorsOf(ids[1..], removed);
      var rest' := SurvivorsOf(ids[1..], removed + [x]);
      if h in removed {
        assert h in removed + [x];
        assert SurvivorsOf(ids, removed + [x]) == [] + rest';
        assert [] + rest' == rest';
        assert SurvivorsOf(ids, removed) == [] + rest;
        assert [] + rest == rest;
      } else {
        var r := [h] + rest;
        assert SurvivorsOf(ids, removed) == r;
        assert r[0] == h && r[1..] == rest;
        if h == x {
          assert h in removed + [x];
          assert SurvivorsOf(ids, removed + [x]) == [] + rest';
          assert Without(r, x) == Without(rest, x);
        } else {
          assert h !in removed + [x];
          assert SurvivorsOf(ids, removed + [x]) == [h] + rest';
          assert Without(r, x) == [h] + Without(rest, x);
        }
      }
    }
  }

  /** Deleting exactly the stale entries, keeping the others untouched, is eviction. */
  lemma EvictedByDeletion(jobs0: map<string, JobEntry>, ids0: seq<string>, jobs: map<string, JobEntry>, ids: seq<string>, now: real)
    requires forall k :: k in jobs0 <==> k in ids0
    requires forall k :: k in jobs <==> k in ids
    requires forall i :: 0 <= i < |ids0| ==> ids0[i] in jobs0
    requires ids == Survivors(ids0, jobs0, now)
    requires forall k :: k in jobs ==> k in jobs0 && jobs[k] == jobs0[k]
    ensures jobs == Evicted(jobs0, now)
  {
    assert forall k :: k in jobs <==> k in jobs0 && !Stale(jobs0[k], now);
  }

  lemma {:induction false} SurvivorsOfStale(ids: seq<string>, jobs: map<string, JobEntry>, now: real, stale: seq<string>)
    requires forall i :: 0 <= i < |ids| ==> ids[i] in jobs
    requires forall i :: 0 <= i < |ids| ==> (ids[i] in stale <==> Stale(jobs[ids[i]], now))
    ensures SurvivorsOf(ids, stale) == Survivors(ids, jobs, now)
  {
    if ids != [] {
      SurvivorsOfStale(ids[1..], jobs, now, stale);
    }
  }
}
