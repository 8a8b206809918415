/** `Queue`, `SchedulerFIFO`, `Host` and `Cluster` of
    cloudmesh/queue/jobqueue.py: jobs and hosts kept as records in keyed
    stores under their own names, a forward-only cursor over the jobs, and
    the path rule of `Host.sync`.

    Reading and writing the YAML file is not done: a store starts from the
    records its file held (an input) and `save` records the store it would
    write. */
module Queues {
  import opened Wrappers
  import opened Text
  import opened Jobs
  import opened Stores

  /** Python's `x or default` on an optional string. */
  function Or(x: Option<string>, default: string): string {
    if Truthy(x) then x.value else default
  }

  /** Every record is stored under its own name. */
  predicate KeyedBy<V>(s: Store<V>, key: V -> string) {
    forall k :: k in s.data ==> key(s.data[k]) == k
  }

  /** The name a job record is stored under. */
  function JobName(r: JobRecord): string {
    r.name
  }

  /** The records of `jobs`, in order. */
  function Records(jobs: seq<Job>): (rs: seq<JobRecord>)
    reads set j | j in jobs
    ensures |rs| == |jobs|
    ensures forall i :: 0 <= i < |jobs| ==> rs[i] == jobs[i].Record()
  {
    if jobs == [] then [] else [jobs[0].Record()] + Records(jobs[1..])
  }

  /** Storing records one after the other under their names, as `add_jobs`
      and `add_hosts` do. */
  function PutAll<V>(s: Store<V>, rs: seq<V>, key: V -> string): (r: Store<V>)
    requires s.Valid()
    ensures r.Valid()
    decreases |rs|
  {
    if rs == [] then s else PutAll(Put(s, key(rs[0]), rs[0]), rs[1..], key)
  }

  lemma PutAllStep<V>(s: Store<V>, rs: seq<V>, key: V -> string, i: nat)
    requires s.Valid() && i < |rs|
    ensures PutAll(s, rs[i..], key) == PutAll(Put(s, key(rs[i]), rs[i]), rs[i + 1..], key)
  {
    assert rs[i..][0] == rs[i];
    assert rs[i..][1..] == rs[i + 1..];
  }

  lemma {:induction false} PutAllKeyed<V>(s: Store<V>, rs: seq<V>, key: V -> string)
    requires s.Valid() && KeyedBy(s, key)
    ensures KeyedBy(PutAll(s, rs, key), key)
    decreases |rs|
  {
    if rs != [] {
      PutAllKeyed(Put(s, key(rs[0]), rs[0]), rs[1..], key);
    }
  }

  /** The records that end up stored: a name given twice keeps its last
      record. */
  lemma {:induction false} PutAllLast<V>(s: Store<V>, rs: seq<V>, key: V -> string, i: nat)
    requires s.Valid() && i < |rs|
    requires forall j :: i < j < |rs| ==> key(rs[j]) != key(rs[i])
    ensures Get(PutAll(s, rs, key), key(rs[i])) == Some(rs[i])
    decreases |rs|
  {
    var t := Put(s, key(rs[0]), rs[0]);
    if i == 0 {
      PutAllKeeps(t, rs[1..], key, key(rs[0]));
    } else {
      PutAllLast(t, rs[1..], key, i - 1);
    }
  }

  lemma {:induction false} PutAllKeeps<V>(s: Store<V>, rs: seq<V>, key: V -> string, k: string)
    requires s.Valid()
    requires forall j :: 0 <= j < |rs| ==> key(rs[j]) != k
    ensures Get(PutAll(s, rs, key), k) == Get(s, k)
    decreases |rs|
  {
    if rs != [] {
      PutAllKeeps(Put(s, key(rs[0]), rs[0]), rs[1..], key, k);
    }
  }

  // ---------------------------------------------------------------------
  // Queue

  /** A queue of jobs: a name, an experiment directory, the YAML file and
      the store of job records; `saved` is the store last written to the
      file. `here` holds the names of the machine the queue runs on. */
  class Queue {
    var name: string
    var experiment: string
    var filename: string
    var jobs: Store<JobRecord>
    var saved: Option<Store<JobRecord>>
    const here: set<string>

    predicate Valid()
      reads this
    {
      jobs.Valid()
    }

    /** `Queue(name, experiment, filename, jobs)`: the experiment defaults
        to `./experiment`, the file to `<experiment>/<name>-queue.yaml`; the
        store starts from what the file holds, then the given jobs are
        added. */
    constructor (name: string, experiment: Option<string>, filename: Option<string>,
                 loaded: Store<JobRecord>, jobs: seq<Job>, here: set<string>)
      requires loaded.Valid()
      ensures Valid() && this.name == name && this.here == here
      ensures this.experiment == Or(experiment, "./experiment")
      ensures this.filename == Or(filename, this.experiment + "/" + name + "-queue.yaml")
      ensures this.jobs == PutAll(loaded, Records(jobs), JobName)
    {
      this.name := name;
      this.experiment := Or(experiment, "./experiment");
      this.filename := Or(filename, Or(experiment, "./experiment") + "/" + name + "-queue.yaml");
      this.jobs := loaded;
      this.saved := None;
      this.here := here;
      new;
      if jobs != [] {
        AddJobs(jobs);
      }
    }

    /** `len(queue)`. */
    function Len(): (n: nat)
      reads this
      requires Valid()
      ensures n == |jobs.keys|
    {
      LenIsKeys(jobs);
      Stores.Len(jobs)
    }

    /** `save`: write the store, but only when it holds a job. */
    method Save()
      modifies this`saved
      ensures saved == (if Stores.Len(jobs) > 0 then Some(jobs) else old(saved))
    {
      if Stores.Len(jobs) > 0 {
        saved := Some(jobs);
      }
    }

    /** `add(job)`: store the job's record under its name, then save. */
    method Add(job: Job)
      requires Valid()
      modifies this`jobs, this`saved
      ensures Valid()
      ensures jobs == Put(old(jobs), job.name, job.Record())
      ensures saved == Some(jobs)
    {
      jobs := Put(jobs, job.name, job.Record());
      PutOrder(old(jobs), job.name, job.Record());
      Save();
    }

    /** `set(job)`: store the job's record under its name, without saving. */
    method Set(job: Job)
      requires Valid()
      modifies this`jobs
      ensures Valid()
      ensures jobs == Put(old(jobs), job.name, job.Record())
    {
      jobs := Put(jobs, job.name, job.Record());
    }

    /** `add_jobs(jobs)`: add each job in turn, saving after each. */
    method AddJobs(js: seq<Job>)
      requires Valid()
      modifies this`jobs, this`saved
      ensures Valid()
      ensures jobs == PutAll(old(jobs), Records(js), JobName)
      ensures js != [] ==> saved == Some(jobs)
      ensures js == [] ==> saved == old(saved)
    {
      var rs := Records(js);
      var i := 0;
      while i < |js|
        invariant 0 <= i <= |js| && Valid()
        invariant PutAll(jobs, rs[i..], JobName) == PutAll(old(jobs), rs, JobName)
        invariant i > 0 ==> saved == Some(jobs)
        invariant i == 0 ==> saved == old(saved) && jobs == old(jobs)
      {
        var r := rs[i];
        PutAllStep(jobs, rs, JobName, i);
        jobs := Put(jobs, r.name, r);
        Save();
        i := i + 1;
      }
    }

    /** `get(name)`: the record stored under `name`; `None` is the
        `KeyError`. */
    function Get(key: string): (r: Option<JobRecord>)
      reads this
      ensures r.Some? <==> key in jobs.data
      ensures r.Some? ==> r.value == jobs.data[key]
    {
      Stores.Get(jobs, key)
    }

    /** `queue[i]` with an integer: the record at position `i` of the key
        order, negative positions counting from the end. */
    function ItemAt(i: int): (r: Option<JobRecord>)
      reads this
      requires Valid()
      ensures r.Some? <==> -|jobs.keys| <= i < |jobs.keys|
      ensures r.Some? ==> r.value == jobs.data[jobs.keys[if i < 0 then |jobs.keys| + i else i]]
    {
      match At(jobs, i)
      case None => None
      case Some(key) => Stores.Get(jobs, key)
    }

    /** `delete(name)`, given the log text `state` reads and the return code
        of `kill`: rebuild the job from its record, kill it when its state is
        `start`, remove its key, save and return it. A missing key, or a
        record whose command makes construction raise, is reported and
        returns `None` with nothing changed. */
    method Delete(key: string, logText: Option<string>, rc: int) returns (job: Option<Job>)
      requires Valid()
      modifies this`jobs, this`saved
      ensures Valid()
      ensures job.Some? <==> key in old(jobs.data) && !ConstructionRaises(old(jobs.data)[key].command)
      ensures job.None? ==> jobs == old(jobs) && saved == old(saved)
      ensures job.Some? ==>
        && fresh(job.value)
        && jobs == Remove(old(jobs), key)
        && saved == (if Stores.Len(jobs) > 0 then Some(jobs) else old(saved))
        && job.value.name == old(jobs.data)[key].name
        && job.value.status == (if ParseState(logText) == StartMsg then KillMsg else ParseState(logText))
    {
      if key !in jobs.data || ConstructionRaises(jobs.data[key].command) {
        return None;
      }
      var j := Stop(jobs.data[key], here, logText, rc);
      jobs := Remove(jobs, key);
      Save();
      return Some(j);
    }

    /** `to_dict()`: the configuration and a copy of the job records, built
        key by key. */
    method ToDict() returns (config: map<string, string>, records: map<string, JobRecord>)
      requires Valid()
      ensures config == map["name" := name, "experiment" := experiment, "filename" := filename]
      ensures records == jobs.data
    {
      config := map["name" := name, "experiment" := experiment, "filename" := filename];
      records := map[];
      var i := 0;
      while i < |jobs.keys|
        invariant 0 <= i <= |jobs.keys|
        invariant forall k :: k in records <==> k in jobs.keys[..i]
        invariant forall k :: k in records ==> k in jobs.data && records[k] == jobs.data[k]
      {
        records := records[jobs.keys[i] := jobs.data[jobs.keys[i]]];
        i := i + 1;
      }
      assert jobs.keys[..i] == jobs.keys;
    }
  }

  /** The job `delete` rebuilds from a stored record, killed when the log
      says it has started. */
  method Stop(r: JobRecord, here: set<string>, logText: Option<string>, rc: int) returns (j: Job)
    requires !ConstructionRaises(r.command)
    ensures fresh(j) && j.name == r.name
    ensures j.status == (if ParseState(logText) == StartMsg then KillMsg else ParseState(logText))
  {
    j := new Job(r, here);
    var state := j.State(logText);
    if state == StartMsg {
      var _, _ := j.Kill(rc);
    }
  }

  /** Adding a job and deleting it again while it is not running restores
      the store, when its name was new and its command splits. */
  lemma AddThenDelete(s: Store<JobRecord>, r: JobRecord)
    requires s.Valid() && r.name !in s.data
    ensures Remove(Put(s, r.name, r), r.name) == s
  {
    RemovePut(s, r.name, r);
  }

  /** Adding and setting keep every record under its own name; so does
      deleting. */
  lemma KeyedByKept<V>(s: Store<V>, key: V -> string, r: V, k: string)
    requires s.Valid() && KeyedBy(s, key)
    ensures KeyedBy(Put(s, key(r), r), key)
    ensures k in s.data ==> KeyedBy(Remove(s, k), key)
  {
  }

  // ---------------------------------------------------------------------
  // SchedulerFIFO

  /** `SchedulerFIFO`: a queue with a cursor into its key order. */
  class SchedulerFIFO {
    const queue: Queue
    var size: nat
    var current: nat

    constructor (name: string, experiment: Option<string>, filename: Option<string>,
                 loaded: Store<JobRecord>, jobs: seq<Job>, here: set<string>)
      requires loaded.Valid()
      ensures fresh(queue) && queue.Valid()
      ensures queue.jobs == PutAll(loaded, old(Records(jobs)), JobName)
      ensures size == |queue.jobs.keys| && current == 0
    {
      var q := new Queue(name, experiment, filename, loaded, jobs, here);
      queue := q;
      size := q.Len();
      current := 0;
    }

    /** `__next__`: the record at the cursor's position, then the cursor
        moves one on. Past the last key the lookup fails (`None`) and the
        cursor stays. */
    method Next() returns (r: Option<JobRecord>)
      requires queue.Valid()
      modifies this`current
      ensures old(current) < |queue.jobs.keys| ==>
        r == Some(queue.jobs.data[queue.jobs.keys[old(current)]]) && current == old(current) + 1
      ensures old(current) >= |queue.jobs.keys| ==> r == None && current == old(current)
    {
      if current >= |queue.jobs.keys| {
        return None;
      }
      var key := queue.jobs.keys[current];
      r := Some(queue.jobs.data[key]);
      current := current + 1;
    }
  }

  // ---------------------------------------------------------------------
  // Hosts

  /** The fields of the `Host` dataclass. The default user comes from the
      environment, so it is an input. */
  datatype HostRecord = HostRecord(
    user: Option<string>,
    name: string,
    ip: string,
    status: string,
    jobCounter: int,
    maxJobsAllowed: int,
    cores: int,
    threads: int,
    gpus: string,
    probeStatus: bool,
    probeTime: Option<string>,
    pingStatus: bool,
    pingTime: Option<string>)

  /** The name a host record is stored under. */
  function HostName(h: HostRecord): string {
    h.name
  }

  function DefaultHost(user: Option<string>): HostRecord {
    HostRecord(user, "localhost", "127.0.0.1", "free", 0, 1, 1, 1, "", false, None, false, None)
  }

  /** The directory `sync` copies: a bare name is made relative with `./`. */
  function SyncPath(experiment: string): (p: string)
    ensures '/' in p
    ensures '/' in experiment ==> p == experiment
    ensures '/' !in experiment ==> |p| == |experiment| + 2 && p[..2] == "./" && p[2..] == experiment
  {
    if '/' !in experiment then "./" + experiment else experiment
  }

  /** Making a path relative twice changes nothing. */
  lemma SyncPathIdempotent(experiment: string)
    ensures SyncPath(SyncPath(experiment)) == SyncPath(experiment)
  {
  }

  /** `Host.sync(user, host, experiment)`, given the return code of `rsync`:
      on a host that is not local, the rsync command run and whether it
      returned 0; on a local host nothing is run and the result is true. */
  function Sync(user: string, host: string, experiment: string, here: set<string>, rc: int)
    : (r: (Option<string>, bool))
    ensures r.0.Some? <==> !IsLocal(Some(host), here)
    ensures r.0.None? ==> r.1
    ensures r.0.Some? ==> (r.1 <==> rc == 0)
  {
    if !IsLocal(Some(host), here) then
      var path := SyncPath(experiment);
      (Some("rsync -r " + path + "/* " + user + "@" + host + ":" + path), rc == 0)
    else
      (None, true)
  }

  // ---------------------------------------------------------------------
  // Cluster

  /** A cluster: hosts kept as records in a store under their names. */
  class Cluster {
    var name: string
    var experiment: string
    var filename: string
    var hosts: Store<HostRecord>
    var saved: Option<Store<HostRecord>>

    predicate Valid()
      reads this
    {
      hosts.Valid()
    }

    /** `Cluster(name, experiment, filename, hosts)`: the file defaults to
        `<experiment>/<name>-cluster.yaml`; the store starts from what the
        file holds, then the given hosts are added. */
    constructor (name: string, experiment: Option<string>, filename: Option<string>,
                 loaded: Store<HostRecord>, hs: seq<HostRecord>)
      requires loaded.Valid()
      ensures Valid() && this.name == name
      ensures this.experiment == Or(experiment, "./experiment")
      ensures this.filename == Or(filename, this.experiment + "/" + name + "-cluster.yaml")
      ensures hosts == PutAll(loaded, hs, HostName)
    {
      this.name := name;
      this.experiment := Or(experiment, "./experiment");
      this.filename := Or(filename, Or(experiment, "./experiment") + "/" + name + "-cluster.yaml");
      this.hosts := loaded;
      this.saved := None;
      new;
      if hs != [] {
        AddHosts(hs);
      }
    }

    function Len(): (n: nat)
      reads this
      requires Valid()
      ensures n == |hosts.keys|
    {
      LenIsKeys(hosts);
      Stores.Len(hosts)
    }

    method Save()
      modifies this`saved
      ensures saved == (if Stores.Len(hosts) > 0 then Some(hosts) else old(saved))
    {
      if Stores.Len(hosts) > 0 {
        saved := Some(hosts);
      }
    }

    /** `add(host)`: store the host under its name, then save. */
    method Add(h: HostRecord)
      requires Valid()
      modifies this`hosts, this`saved
      ensures Valid()
      ensures hosts == Put(old(hosts), h.name, h)
      ensures saved == Some(hosts)
    {
      hosts := Put(hosts, h.name, h);
      PutOrder(old(hosts), h.name, h);
      Save();
    }

    /** `set(host)`: store the host under its name, without saving. */
    method Set(h: HostRecord)
      requires Valid()
      modifies this`hosts
      ensures Valid()
      ensures hosts == Put(old(hosts), h.name, h)
    {
      hosts := Put(hosts, h.name, h);
    }

    method AddHosts(hs: seq<HostRecord>)
      requires Valid()
      modifies this`hosts, this`saved
      ensures Valid()
      ensures hosts == PutAll(old(hosts), hs, HostName)
      ensures hs != [] ==> saved == Some(hosts)
      ensures hs == [] ==> saved == old(saved)
    {
      var i := 0;
      while i < |hs|
        invariant 0 <= i <= |hs| && Valid()
        invariant PutAll(hosts, hs[i..], HostName) == PutAll(old(hosts), hs, HostName)
        invariant i > 0 ==> saved == Some(hosts)
        invariant i == 0 ==> saved == old(saved) && hosts == old(hosts)
      {
        var h := hs[i];
        PutAllStep(hosts, hs, HostName, i);
        hosts := Put(hosts, h.name, h);
        Save();
        i := i + 1;
      }
    }

    /** `delete(name)`: remove the host; a missing name is ignored. Nothing
        is saved. */
    method Delete(key: string)
      requires Valid()
      modifies this`hosts
      ensures Valid()
      ensures key in old(hosts.data) ==> hosts == Remove(old(hosts), key)
      ensures key !in old(hosts.data) ==> hosts == old(hosts)
    {
      if key in hosts.data {
        hosts := Remove(hosts, key);
      }
    }

    function Get(key: string): (r: Option<HostRecord>)
      reads this
      ensures r.Some? <==> key in hosts.data
      ensures r.Some? ==> r.value == hosts.data[key]
    {
      Stores.Get(hosts, key)
    }

    function ItemAt(i: int): (r: Option<HostRecord>)
      reads this
      requires Valid()
      ensures r.Some? <==> -|hosts.keys| <= i < |hosts.keys|
      ensures r.Some? ==> r.value == hosts.data[hosts.keys[if i < 0 then |hosts.keys| + i else i]]
    {
      match At(hosts, i)
      case None => None
      case Some(key) => Stores.Get(hosts, key)
    }

    /** `activate(name, status)`: mark the host `active` or `inactive` in
        place. A missing name raises (`false`) and changes nothing. */
    method Activate(key: string, status: bool) returns (ok: bool)
      requires Valid()
      modifies this`hosts
      ensures Valid()
      ensures ok <==> key in old(hosts.data)
      ensures ok ==>
        && hosts.keys == old(hosts.keys)
        && hosts.data == old(hosts.data)[key := old(hosts.data)[key].(status := ActiveText(status))]
      ensures !ok ==> hosts == old(hosts)
    {
      if key !in hosts.data {
        return false;
      }
      var h := hosts.data[key];
      hosts := Store(hosts.keys, hosts.data[key := h.(status := ActiveText(status))]);
      return true;
    }

    /** `to_dict()`: the configuration and a copy of the host records, built
        key by key. */
    method ToDict() returns (config: map<string, string>, records: map<string, HostRecord>)
      requires Valid()
      ensures config == map["name" := name, "experiment" := experiment, "filename" := filename]
      ensures records == hosts.data
    {
      config := map["name" := name, "experiment" := experiment, "filename" := filename];
      records := map[];
      var i := 0;
      while i < |hosts.keys|
        invariant 0 <= i <= |hosts.keys|
        invariant forall k :: k in records <==> k in hosts.keys[..i]
        invariant forall k :: k in records ==> k in hosts.data && records[k] == hosts.data[k]
      {
        records := records[hosts.keys[i] := hosts.data[hosts.keys[i]]];
        i := i + 1;
      }
      assert hosts.keys[..i] == hosts.keys;
    }
  }

  function ActiveText(status: bool): string {
    if status then "active" else "inactive"
  }
}
