/** The job set of cloudmesh/queue/jobqueue-deprecated.py: hosts with a
    job budget, jobs that move from `ready` to `submitted` to `killed`, the
    scheduling policy that picks a host for a job, and the bookkeeping of how
    many jobs each host runs. The YAML configuration the original reads and
    writes is held as one value whose updates every method sees. */
module JobSets {
  import opened Wrappers
  import opened Stores

  /** The host fields scheduling reads: its IP and its job budget. */
  datatype Host = Host(ip: string, maxJobsAllowed: int, jobCounter: int)

  /** `max_jobs_allowed - job_counter`. */
  function Spare(h: Host): int {
    h.maxJobsAllowed - h.jobCounter
  }

  /** The job fields the bookkeeping reads and writes. */
  datatype Job = Job(
    user: string, ip: string, directory: string, output: string,
    executable: string, arguments: string, status: string,
    submittedToIp: Option<string>)

  const StatusReady: string := "ready"
  const StatusSubmitted: string := "submitted"
  const StatusKilled: string := "killed"

  const Sequential: string := "sequential"
  const Smart: string := "smart"
  const Frugal: string := "frugal"
  const RandomHost: string := "random"

  /** The policies `get_ip` knows and `update_policy` accepts. */
  predicate KnownPolicy(policy: string) {
    policy == Sequential || policy == Smart || policy == Frugal || policy == RandomHost
  }

  /** The configuration: hosts and jobs keyed by name, and the policy. */
  datatype JobSet = JobSet(hosts: Store<Host>, jobs: Store<Job>, policy: string) {
    predicate Valid() {
      hosts.Valid() && jobs.Valid()
    }
  }

  // ---------------------------------------------------------------------
  // Availability

  /** Host `j` (in key order) offers `ip` with spare capacity. */
  predicate Offers(hosts: Store<Host>, j: int, ip: string)
    requires hosts.Valid()
  {
    0 <= j < |hosts.keys| && hosts.data[hosts.keys[j]].ip == ip && Spare(hosts.data[hosts.keys[j]]) > 0
  }

  /** The availability dict built from the first `n` hosts: each host with
      spare capacity writes that capacity under its IP. */
  function AvailabilityOf(hosts: Store<Host>, n: nat): (a: Store<int>)
    requires hosts.Valid() && n <= |hosts.keys|
    ensures a.Valid()
  {
    if n == 0 then Empty()
    else
      var a := AvailabilityOf(hosts, n - 1);
      var h := hosts.data[hosts.keys[n - 1]];
      if Spare(h) > 0 then Put(a, h.ip, Spare(h)) else a
  }

  /** `Policy(ip, spec).availability`. */
  function Availability(hosts: Store<Host>): (a: Store<int>)
    requires hosts.Valid()
    ensures a.Valid()
  {
    AvailabilityOf(hosts, |hosts.keys|)
  }

  /** The availability dict holds exactly the IPs of hosts with spare
      capacity. */
  lemma {:induction false} AvailabilityOfKeys(hosts: Store<Host>, n: nat, ip: string)
    requires hosts.Valid() && n <= |hosts.keys|
    ensures ip in AvailabilityOf(hosts, n).data <==> exists j :: 0 <= j < n && Offers(hosts, j, ip)
  {
    if n > 0 {
      AvailabilityOfKeys(hosts, n - 1, ip);
      AvailabilityOfKeysStep(hosts, n, ip);
    }
  }

  /** The inductive step of `AvailabilityOfKeys`. */
  lemma AvailabilityOfKeysStep(hosts: Store<Host>, n: nat, ip: string)
    requires hosts.Valid() && 0 < n <= |hosts.keys|
    requires ip in AvailabilityOf(hosts, n - 1).data <==> exists j :: 0 <= j < n - 1 && Offers(hosts, j, ip)
    ensures ip in AvailabilityOf(hosts, n).data <==> exists j :: 0 <= j < n && Offers(hosts, j, ip)
  {
    AvailabilityOfStep(hosts, n, ip);
    OffersStep(hosts, n, ip);
  }

  /** The `n`-th host adds its IP when it has spare capacity. */
  lemma AvailabilityOfStep(hosts: Store<Host>, n: nat, ip: string)
    requires hosts.Valid() && 0 < n <= |hosts.keys|
    ensures ip in AvailabilityOf(hosts, n).data <==> ip in AvailabilityOf(hosts, n - 1).data || Offers(hosts, n - 1, ip)
  {
  }

  /** Some host among the first `n` offers `ip`: among the first `n - 1`,
      or the `n`-th. */
  lemma OffersStep(hosts: Store<Host>, n: nat, ip: string)
    requires hosts.Valid() && 0 < n <= |hosts.keys|
    ensures (exists j :: 0 <= j < n && Offers(hosts, j, ip))
            <==> (exists j :: 0 <= j < n - 1 && Offers(hosts, j, ip)) || Offers(hosts, n - 1, ip)
  {
    if exists j :: 0 <= j < n && Offers(hosts, j, ip) {
      var j :| 0 <= j < n && Offers(hosts, j, ip);
      if j < n - 1 {
        assert 0 <= j < n - 1 && Offers(hosts, j, ip);
      }
    }
  }

  /** Each value of the availability dict is the spare capacity of a host
      with that IP. */
  lemma {:induction false} AvailabilityOfValues(hosts: Store<Host>, n: nat, ip: string)
    requires hosts.Valid() && n <= |hosts.keys| && ip in AvailabilityOf(hosts, n).data
    ensures exists j :: 0 <= j < n && Offers(hosts, j, ip) && AvailabilityOf(hosts, n).data[ip] == Spare(hosts.data[hosts.keys[j]])
  {
    var h := hosts.data[hosts.keys[n - 1]];
    if Spare(h) > 0 && ip == h.ip {
      assert Offers(hosts, n - 1, ip);
    } else {
      AvailabilityOfValues(hosts, n - 1, ip);
      var j :| 0 <= j < n - 1 && Offers(hosts, j, ip) && AvailabilityOf(hosts, n - 1).data[ip] == Spare(hosts.data[hosts.keys[j]]);
      assert Offers(hosts, j, ip);
    }
  }

  /** The availability dict is keyed by the IPs of the hosts with spare
      capacity, and every value is positive. */
  lemma AvailabilityExact(hosts: Store<Host>, ip: string)
    requires hosts.Valid()
    ensures ip in Availability(hosts).data <==> exists k :: k in hosts.data && hosts.data[k].ip == ip && Spare(hosts.data[k]) > 0
    ensures ip in Availability(hosts).data ==> Availability(hosts).data[ip] > 0
  {
    AvailabilityOfKeys(hosts, |hosts.keys|, ip);
    if ip in Availability(hosts).data {
      AvailabilityOfValues(hosts, |hosts.keys|, ip);
    }
    if exists k :: k in hosts.data && hosts.data[k].ip == ip && Spare(hosts.data[k]) > 0 {
      var k :| k in hosts.data && hosts.data[k].ip == ip && Spare(hosts.data[k]) > 0;
      var j :| 0 <= j < |hosts.keys| && hosts.keys[j] == k;
      assert Offers(hosts, j, ip);
    }
    if ip in Availability(hosts).data {
      var j :| 0 <= j < |hosts.keys| && Offers(hosts, j, ip) && Availability(hosts).data[ip] == Spare(hosts.data[hosts.keys[j]]);
    }
  }

  /** When no two hosts share an IP, the value under a host's IP is that
      host's spare capacity. */
  lemma AvailabilityValue(hosts: Store<Host>, k: string)
    requires hosts.Valid() && k in hosts.data && Spare(hosts.data[k]) > 0
    requires forall k1, k2 :: k1 in hosts.data && k2 in hosts.data && hosts.data[k1].ip == hosts.data[k2].ip ==> k1 == k2
    ensures hosts.data[k].ip in Availability(hosts).data
    ensures Availability(hosts).data[hosts.data[k].ip] == Spare(hosts.data[k])
  {
    var ip := hosts.data[k].ip;
    AvailabilityExact(hosts, ip);
    AvailabilityOfKeys(hosts, |hosts.keys|, ip);
    if ip in Availability(hosts).data {
      AvailabilityOfValues(hosts, |hosts.keys|, ip);
    }
    var j :| 0 <= j < |hosts.keys| && Offers(hosts, j, ip) && Availability(hosts).data[ip] == Spare(hosts.data[hosts.keys[j]]);
    assert hosts.keys[j] in hosts.data;
  }

  /** No host among the first `n` has spare capacity: nothing is available. */
  lemma {:induction false} AvailabilityOfNone(hosts: Store<Host>, n: nat)
    requires hosts.Valid() && n <= |hosts.keys|
    requires forall i :: 0 <= i < n ==> Spare(hosts.data[hosts.keys[i]]) <= 0
    ensures AvailabilityOf(hosts, n) == Empty()
  {
    if n > 0 {
      AvailabilityOfNone(hosts, n - 1);
    }
  }

  /** The first IP in the availability dict is that of the first host (in
      key order) with spare capacity: later writes never move it. */
  lemma {:induction false} AvailabilityOfFirst(hosts: Store<Host>, n: nat, j: nat)
    requires hosts.Valid() && j < n <= |hosts.keys|
    requires Spare(hosts.data[hosts.keys[j]]) > 0
    requires forall i :: 0 <= i < j ==> Spare(hosts.data[hosts.keys[i]]) <= 0
    ensures AvailabilityOf(hosts, n).keys != []
    ensures AvailabilityOf(hosts, n).keys[0] == hosts.data[hosts.keys[j]].ip
  {
    var h := hosts.data[hosts.keys[n - 1]];
    if n == j + 1 {
      AvailabilityOfNone(hosts, j);
      PutOrder(AvailabilityOf(hosts, j), h.ip, Spare(h));
    } else {
      AvailabilityOfFirst(hosts, n - 1, j);
      if Spare(h) > 0 {
        PutOrder(AvailabilityOf(hosts, n - 1), h.ip, Spare(h));
      }
    }
  }

  /** `sequential` takes the IP of the first host with spare capacity. */
  lemma SequentialTakesFirst(hosts: Store<Host>, ip: string, j: nat, pick: nat)
    requires hosts.Valid() && j < |hosts.keys|
    requires Spare(hosts.data[hosts.keys[j]]) > 0
    requires forall i :: 0 <= i < j ==> Spare(hosts.data[hosts.keys[i]]) <= 0
    requires var a := Availability(hosts); !(ip in a.data && a.data[ip] != 0)
    ensures Choose(Availability(hosts), ip, Sequential, pick) == Chosen(hosts.data[hosts.keys[j]].ip)
  {
    AvailabilityOfFirst(hosts, |hosts.keys|, j);
  }

  // ---------------------------------------------------------------------
  // Choosing a host

  /** The outcome of `get_ip`: an IP, `None` for an unknown policy, or the
      `IndexError` of a known policy with no host available. */
  datatype Choice = Chosen(ip: string) | NoPolicy | Fails

  /** `larger`: `x` comes before `y` in `sorted(..., reverse=True)`;
      otherwise in `sorted(...)`. */
  predicate Beats(x: int, y: int, larger: bool) {
    if larger then x > y else x < y
  }

  /** The position of the first entry of the first `n` keys that `sorted`
      puts first: the first largest value when `larger`, the first smallest
      otherwise (Python's sort is stable, also in reverse). */
  function Best(a: Store<int>, n: nat, larger: bool): (i: nat)
    requires a.Valid() && 0 < n <= |a.keys|
    ensures i < n
    ensures forall j :: 0 <= j < n ==> !Beats(a.data[a.keys[j]], a.data[a.keys[i]], larger)
    ensures forall j :: 0 <= j < i ==> Beats(a.data[a.keys[i]], a.data[a.keys[j]], larger)
  {
    if n == 1 then 0
    else
      var i := Best(a, n - 1, larger);
      if Beats(a.data[a.keys[n - 1]], a.data[a.keys[i]], larger) then n - 1 else i
  }

  /** `Policy.get_ip`: the job's own IP when it has spare capacity, else the
      policy's pick; `pick` stands for the random choice. */
  function Choose(a: Store<int>, ip: string, policy: string, pick: nat): (c: Choice)
    requires a.Valid()
    ensures c.Chosen? ==> c.ip in a.data
    ensures ip in a.data && a.data[ip] != 0 ==> c == Chosen(ip)
    ensures c.NoPolicy? <==> !KnownPolicy(policy) && !(ip in a.data && a.data[ip] != 0)
    ensures c.Fails? <==> KnownPolicy(policy) && a.keys == [] && ip !in a.data
    ensures !(ip in a.data && a.data[ip] != 0) && policy == Sequential && a.keys != [] ==> c == Chosen(a.keys[0])
    ensures !(ip in a.data && a.data[ip] != 0) && policy == RandomHost && a.keys != [] ==>
              c == Chosen(a.keys[pick % |a.keys|])
  {
    if ip in a.data && a.data[ip] != 0 then Chosen(ip)
    else if !KnownPolicy(policy) then NoPolicy
    else if a.keys == [] then Fails
    else if policy == Sequential then Chosen(a.keys[0])
    else if policy == RandomHost then Chosen(a.keys[pick % |a.keys|])
    else Chosen(a.keys[Best(a, |a.keys|, policy == Smart)])
  }

  /** Whatever the policy, a chosen IP belongs to a host with spare
      capacity; smart picks the first IP with the most capacity and frugal
      the first with the least. */
  lemma ChosenHasSpare(hosts: Store<Host>, ip: string, policy: string, pick: nat)
    requires hosts.Valid()
    ensures var a := Availability(hosts);
      var c := Choose(a, ip, policy, pick);
      && (c.Chosen? ==> exists k :: k in hosts.data && hosts.data[k].ip == c.ip && Spare(hosts.data[k]) > 0)
      && (c.Chosen? && c.ip != ip && policy == Smart ==>
            forall x :: x in a.data ==> a.data[x] <= a.data[c.ip])
      && (c.Chosen? && c.ip != ip && policy == Frugal ==>
            forall x :: x in a.data ==> a.data[x] >= a.data[c.ip])
  {
    var a := Availability(hosts);
    var c := Choose(a, ip, policy, pick);
    if c.Chosen? {
      AvailabilityExact(hosts, c.ip);
      if c.ip != ip && (policy == Smart || policy == Frugal) {
        var i := Best(a, |a.keys|, policy == Smart);
        forall x | x in a.data ensures !Beats(a.data[x], a.data[c.ip], policy == Smart) {
          var j :| 0 <= j < |a.keys| && a.keys[j] == x;
        }
      }
    }
  }

  /** `Policy`: the availability dict computed from the hosts once, and the
      choice made from it. */
  class Policy {
    const ip: string
    const policy: string
    var availability: Store<int>

    constructor (ip: string, hosts: Store<Host>, policy: string)
      requires hosts.Valid()
      ensures this.ip == ip && this.policy == policy
      ensures availability == Availability(hosts)
    {
      this.ip := ip;
      this.policy := policy;
      availability := Empty();
      new;
      var n := 0;
      while n < |hosts.keys|
        invariant n <= |hosts.keys|
        invariant availability == AvailabilityOf(hosts, n)
      {
        var h := hosts.data[hosts.keys[n]];
        var spare := h.maxJobsAllowed - h.jobCounter;
        if spare > 0 {
          availability := Put(availability, h.ip, spare);
        }
        n := n + 1;
      }
    }

    /** `get_ip()`. */
    function GetIp(pick: nat): (c: Choice)
      reads this
      requires availability.Valid()
      ensures c.Chosen? ==> c.ip in availability.data
    {
      Choose(availability, ip, policy, pick)
    }
  }

  /** `get_available_ip(ip, spec)`. */
  method GetAvailableIp(ip: string, hosts: Store<Host>, policy: string, pick: nat) returns (c: Choice)
    requires hosts.Valid()
    ensures c == Choose(Availability(hosts), ip, policy, pick)
    ensures c.Chosen? ==> c.ip in Availability(hosts).data
  {
    var p := new Policy(ip, hosts, policy);
    c := p.GetIp(pick);
  }

  /** `_get_hostname(ip, spec)`: the first host, in key order, with that IP
      from position `i` on. */
  function HostnameFrom(hosts: Store<Host>, ip: string, i: nat): (r: Option<string>)
    requires hosts.Valid() && i <= |hosts.keys|
    ensures r.Some? ==> r.value in hosts.data && hosts.data[r.value].ip == ip && exists j :: (
      && i <= j < |hosts.keys| && hosts.keys[j] == r.value
      && forall j' :: i <= j' < j ==> hosts.data[hosts.keys[j']].ip != ip)
    ensures r.None? ==> forall j :: i <= j < |hosts.keys| ==> hosts.data[hosts.keys[j]].ip != ip
    decreases |hosts.keys| - i
  {
    if i == |hosts.keys| then None
    else if hosts.data[hosts.keys[i]].ip == ip then Some(hosts.keys[i])
    else HostnameFrom(hosts, ip, i + 1)
  }

  /** `_get_hostname(ip, spec)`: the first host with that IP, if any. */
  function GetHostname(hosts: Store<Host>, ip: string): (r: Option<string>)
    requires hosts.Valid()
    ensures r.Some? ==> r.value in hosts.data && hosts.data[r.value].ip == ip
    ensures r.None? <==> forall j :: 0 <= j < |hosts.keys| ==> hosts.data[hosts.keys[j]].ip != ip
  {
    HostnameFrom(hosts, ip, 0)
  }

  /** A host is charged for an IP it offers. */
  lemma ChosenHasHostname(hosts: Store<Host>, ip: string, policy: string, pick: nat)
    requires hosts.Valid()
    ensures Choose(Availability(hosts), ip, policy, pick).Chosen? ==>
      GetHostname(hosts, Choose(Availability(hosts), ip, policy, pick).ip).Some?
  {
    ChosenHasSpare(hosts, ip, policy, pick);
  }

  // ---------------------------------------------------------------------
  // Running, killing and deleting jobs

  /** What `run_job` reports for a job: submitted with the host's IP and
      the pid file, skipped with its previous status, or not submitted. */
  datatype Report = Submitted(submittedToIp: string, pidLocation: string)
                  | Skipped(previousStatus: string)
                  | SubmissionError

  const PidSuffix: string := "_pid.log"

  /** `{output}/{k}_pid.log`. */
  function PidLocation(output: string, k: string): string {
    output + "/" + k + PidSuffix
  }

  /** Whether `names` selects job `k`; no names select every job. */
  predicate Selected(names: Option<seq<string>>, k: string) {
    names.None? || k in names.value
  }

  /** One job's turn in `run_job`: go on with a report, stop with a report,
      or raise with the changes made so far. */
  datatype RunStep = Next(s: JobSet, report: Report) | Stop(s: JobSet, report: Report) | Raise(s: JobSet)

  /** The host's counter, one more. */
  function Charge(hosts: Store<Host>, h: string, delta: int): (r: Store<Host>)
    requires hosts.Valid() && h in hosts.data
    ensures r.Valid() && r.keys == hosts.keys && r.data.Keys == hosts.data.Keys
  {
    Put(hosts, h, hosts.data[h].(jobCounter := hosts.data[h].jobCounter + delta))
  }

  /** Replaces the value of a job already in the set. */
  function Update(jobs: Store<Job>, k: string, v: Job): (r: Store<Job>)
    requires jobs.Valid() && k in jobs.data
    ensures r.Valid() && r.keys == jobs.keys && r.data.Keys == jobs.data.Keys
  {
    Put(jobs, k, v)
  }

  /** The body of `run_job` for job `k`. */
  function SubmitStep(s: JobSet, k: string, pick: nat): (r: RunStep)
    requires s.Valid() && k in s.jobs.data
    ensures r.s.Valid() && r.s.policy == s.policy
    ensures r.s.jobs.keys == s.jobs.keys && r.s.jobs.data.Keys == s.jobs.data.Keys
    ensures r.s.hosts.keys == s.hosts.keys && r.s.hosts.data.Keys == s.hosts.data.Keys
    ensures forall x :: x in s.jobs.data && x != k ==> r.s.jobs.data[x] == s.jobs.data[x]
    ensures s.jobs.data[k].status != StatusReady ==> r.s == s
  {
    var v := s.jobs.data[k];
    match Choose(Availability(s.hosts), v.ip, s.policy, pick)
    case Fails => Raise(s)
    case NoPolicy => Stop(s, SubmissionError)
    case Chosen(ip) =>
      if v.status != StatusReady then Next(s, Skipped(v.status))
      else
        var jobs := Update(s.jobs, k, v.(status := StatusSubmitted, submittedToIp := Some(ip)));
        match GetHostname(s.hosts, ip)
        case None => Raise(s.(jobs := jobs))
        case Some(h) => Next(JobSet(Charge(s.hosts, h, 1), jobs, s.policy), Submitted(ip, PidLocation(v.output, k)))
  }

  /** A ready job sent to a host becomes submitted to that IP, the host
      found for the IP runs one more job, and nothing else changes; a job
      that is not ready is reported skipped with its status and nothing
      changes. */
  lemma SubmitStepFacts(s: JobSet, k: string, pick: nat)
    requires s.Valid() && k in s.jobs.data
    requires Choose(Availability(s.hosts), s.jobs.data[k].ip, s.policy, pick).Chosen?
    ensures var ip := Choose(Availability(s.hosts), s.jobs.data[k].ip, s.policy, pick).ip;
      var v := s.jobs.data[k];
      var r := SubmitStep(s, k, pick);
      && (v.status == StatusReady ==>
            && r.Next?
            && r.report == Submitted(ip, PidLocation(v.output, k))
            && r.s.jobs.data == s.jobs.data[k := v.(status := StatusSubmitted, submittedToIp := Some(ip))]
            && var h := GetHostname(s.hosts, ip).value;
               && r.s.hosts.data[h].jobCounter == s.hosts.data[h].jobCounter + 1
               && r.s.hosts.data[h].maxJobsAllowed == s.hosts.data[h].maxJobsAllowed
               && (forall x :: x in s.hosts.data && x != h ==> r.s.hosts.data[x] == s.hosts.data[x]))
      && (v.status != StatusReady ==> r == Next(s, Skipped(v.status)))
  {
    ChosenHasHostname(s.hosts, s.jobs.data[k].ip, s.policy, pick);
  }

  /** The outcome of `run_job`: the reports, or the exception that ended it;
      either way with the job set as it was left. */
  datatype RunResult = Done(s: JobSet, submitted: Store<Report>) | Raised(s: JobSet)

  /** `run_job(names)` from the `i`-th job on, with the reports `acc` so
      far; `picks(i)` stands for the random choice made for the `i`-th job. */
  function RunFrom(s: JobSet, keys: seq<string>, names: Option<seq<string>>, picks: nat -> nat, i: nat, acc: Store<Report>): (r: RunResult)
    requires s.Valid() && acc.Valid() && s.jobs.keys == keys && i <= |keys|
    ensures r.s.Valid() && r.s.jobs.keys == keys && r.s.hosts.keys == s.hosts.keys
    decreases |keys| - i
  {
    if i == |keys| then Done(s, acc)
    else if !Selected(names, keys[i]) then RunFrom(s, keys, names, picks, i + 1, acc)
    else
      match SubmitStep(s, keys[i], picks(i))
      case Raise(s') => Raised(s')
      case Stop(s', rep) => Done(s', Put(acc, keys[i], rep))
      case Next(s', rep) => RunFrom(s', keys, names, picks, i + 1, Put(acc, keys[i], rep))
  }

  /** A job `run_job` was not asked to run is passed over. */
  lemma RunFromSkip(s: JobSet, keys: seq<string>, names: Option<seq<string>>, picks: nat -> nat, i: nat, acc: Store<Report>)
    requires s.Valid() && acc.Valid() && s.jobs.keys == keys && i < |keys| && !Selected(names, keys[i])
    ensures RunFrom(s, keys, names, picks, i, acc) == RunFrom(s, keys, names, picks, i + 1, acc)
  {
  }

  /** One selected job's turn of `run_job`: the rest of the run goes on
      from the state its step leaves, or the run ends there. */
  lemma RunFromUnfold(s: JobSet, keys: seq<string>, names: Option<seq<string>>, picks: nat -> nat, i: nat, acc: Store<Report>)
    requires s.Valid() && acc.Valid() && s.jobs.keys == keys && i < |keys| && Selected(names, keys[i])
    ensures var st := SubmitStep(s, keys[i], picks(i));
      && (st.Next? ==> RunFrom(s, keys, names, picks, i, acc) == RunFrom(st.s, keys, names, picks, i + 1, Put(acc, keys[i], st.report)))
      && (st.Stop? ==> RunFrom(s, keys, names, picks, i, acc) == Done(st.s, Put(acc, keys[i], st.report)))
      && (st.Raise? ==> RunFrom(s, keys, names, picks, i, acc) == Raised(st.s))
  {
  }

  /** `run_job` leaves every job that was not ready as it was, and every job
      it did not select. */
  lemma {:induction false} RunKeepsOthers(s: JobSet, keys: seq<string>, names: Option<seq<string>>, picks: nat -> nat, i: nat, acc: Store<Report>, k: string)
    requires s.Valid() && acc.Valid() && s.jobs.keys == keys && i <= |keys|
    requires k in s.jobs.data && (s.jobs.data[k].status != StatusReady || !Selected(names, k))
    ensures k in RunFrom(s, keys, names, picks, i, acc).s.jobs.data
    ensures RunFrom(s, keys, names, picks, i, acc).s.jobs.data[k] == s.jobs.data[k]
    decreases |keys| - i
  {
    if i < |keys| && Selected(names, keys[i]) {
      var st := SubmitStep(s, keys[i], picks(i));
      if st.Next? {
        RunKeepsOthers(st.s, keys, names, picks, i + 1, Put(acc, keys[i], st.report), k);
      }
    } else if i < |keys| {
      RunKeepsOthers(s, keys, names, picks, i + 1, acc, k);
    }
  }

  /** The result of one job's turn in `kill_job`: go on (saying whether it
      was killed), the early `return ""` of a submitted job without a host
      IP, or the exception of an IP no host has. */
  datatype KillStep = KNext(s: JobSet, killed: bool) | KMissingIp(s: JobSet) | KRaise(s: JobSet)

  /** The body of `kill_job` for job `k`. */
  function KillStepOf(s: JobSet, k: string): (r: KillStep)
    requires s.Valid() && k in s.jobs.data
    ensures r.s.Valid() && r.s.policy == s.policy
    ensures r.s.jobs.keys == s.jobs.keys && r.s.jobs.data.Keys == s.jobs.data.Keys
    ensures r.s.hosts.keys == s.hosts.keys && r.s.hosts.data.Keys == s.hosts.data.Keys
    ensures forall x :: x in s.jobs.data && x != k ==> r.s.jobs.data[x] == s.jobs.data[x]
    ensures KeptOrKilled(s.jobs.data[k], r.s.jobs.data[k])
    ensures r.KRaise? ==> r.s.jobs.data[k].status == StatusKilled
  {
    var v := s.jobs.data[k];
    if v.status != StatusSubmitted then KNext(s, false)
    else if v.submittedToIp.None? then KMissingIp(s)
    else
      var jobs := Update(s.jobs, k, v.(status := StatusKilled));
      match GetHostname(s.hosts, v.submittedToIp.value)
      case None => KRaise(s.(jobs := jobs))
      case Some(h) => KNext(JobSet(Charge(s.hosts, h, -1), jobs, s.policy), true)
  }

  /** What one turn of `kill_job` does to job `k`: a job not submitted is
      left alone; a submitted job without an IP ends the run unchanged; a
      submitted job is marked killed, and the host its IP finds, when there
      is one, is charged one job less, else the run raises. */
  lemma KillStepFacts(s: JobSet, k: string)
    requires s.Valid() && k in s.jobs.data
    ensures var v := s.jobs.data[k];
      var r := KillStepOf(s, k);
      && (v.status != StatusSubmitted ==> r == KNext(s, false))
      && (v.status == StatusSubmitted && v.submittedToIp.None? ==> r == KMissingIp(s))
      && (v.status == StatusSubmitted && v.submittedToIp.Some? ==>
            && r.s.jobs.data == s.jobs.data[k := v.(status := StatusKilled)]
            && (GetHostname(s.hosts, v.submittedToIp.value).None? ==> r.KRaise? && r.s.hosts == s.hosts)
            && (GetHostname(s.hosts, v.submittedToIp.value).Some? ==>
                  var h := GetHostname(s.hosts, v.submittedToIp.value).value;
                  && r.KNext? && r.killed
                  && r.s.hosts.data == s.hosts.data[h := s.hosts.data[h].(jobCounter := s.hosts.data[h].jobCounter - 1)]))
  {
  }

  /** Killing a job that `run_job` just submitted gives back the host table
      it started from, and leaves the job killed. */
  lemma KillAfterSubmit(s: JobSet, k: string, pick: nat)
    requires s.Valid() && k in s.jobs.data && s.jobs.data[k].status == StatusReady
    requires Choose(Availability(s.hosts), s.jobs.data[k].ip, s.policy, pick).Chosen?
    ensures SubmitStep(s, k, pick).Next?
    ensures var t := SubmitStep(s, k, pick).s;
      && KillStepOf(t, k).KNext?
      && KillStepOf(t, k).s.hosts == s.hosts
      && KillStepOf(t, k).s.jobs.data[k].status == StatusKilled
  {
    SubmitStepFacts(s, k, pick);
    var ip := Choose(Availability(s.hosts), s.jobs.data[k].ip, s.policy, pick).ip;
    var h := GetHostname(s.hosts, ip).value;
    ChargeKeepsHostname(s.hosts, h, 1, ip);
    ChargeRefund(s.hosts, h, 1);
  }

  /** Charging a host and then refunding it gives back the host table. */
  lemma ChargeRefund(hosts: Store<Host>, h: string, delta: int)
    requires hosts.Valid() && h in hosts.data
    ensures Charge(Charge(hosts, h, delta), h, -delta) == hosts
  {
    assert Charge(Charge(hosts, h, delta), h, -delta).data == hosts.data;
  }

  /** Charging a host does not change which host an IP finds. */
  lemma ChargeKeepsHostname(hosts: Store<Host>, h: string, delta: int, ip: string)
    requires hosts.Valid() && h in hosts.data
    ensures GetHostname(Charge(hosts, h, delta), ip) == GetHostname(hosts, ip)
  {
    HostnameUnchanged(hosts, Charge(hosts, h, delta), ip, 0);
  }

  /** Changing a host's counter does not change which host an IP finds. */
  lemma {:induction false} HostnameUnchanged(a: Store<Host>, b: Store<Host>, ip: string, i: nat)
    requires a.Valid() && b.Valid() && a.keys == b.keys && i <= |a.keys|
    requires forall k :: k in a.data ==> k in b.data && b.data[k].ip == a.data[k].ip
    ensures HostnameFrom(b, ip, i) == HostnameFrom(a, ip, i)
    decreases |a.keys| - i
  {
    if i < |a.keys| {
      var k := a.keys[i];
      assert k in a.data && b.data[k].ip == a.data[k].ip;
      HostnameUnchanged(a, b, ip, i + 1);
    }
  }

  /** The outcome of `kill_job`: the names killed, in order, or the early
      `return ""`, or the exception; with the job set as it was left. */
  datatype KillResult = KillDone(s: JobSet, killed: seq<string>) | MissingIp(s: JobSet) | KillRaised(s: JobSet)

  /** `kill_job(names)` from the `i`-th job on. */
  function KillFrom(s: JobSet, keys: seq<string>, names: Option<seq<string>>, i: nat, acc: seq<string>): (r: KillResult)
    requires s.Valid() && s.jobs.keys == keys && i <= |keys|
    ensures r.s.Valid() && r.s.jobs.keys == keys && r.s.hosts.keys == s.hosts.keys
    ensures r.s.jobs.data.Keys == s.jobs.data.Keys
    decreases |keys| - i
  {
    if i == |keys| then KillDone(s, acc)
    else if !Selected(names, keys[i]) then KillFrom(s, keys, names, i + 1, acc)
    else
      match KillStepOf(s, keys[i])
      case KMissingIp(s') => MissingIp(s')
      case KRaise(s') => KillRaised(s')
      case KNext(s', killed) => KillFrom(s', keys, names, i + 1, if killed then acc + [keys[i]] else acc)
  }

  /** `kill_job` changes no job it was not asked to kill. */
  lemma {:induction false} KillKeepsOthers(s: JobSet, keys: seq<string>, names: Option<seq<string>>, i: nat, acc: seq<string>, x: string)
    requires s.Valid() && s.jobs.keys == keys && i <= |keys|
    requires x in s.jobs.data && !Selected(names, x)
    ensures KillFrom(s, keys, names, i, acc).s.jobs.data[x] == s.jobs.data[x]
    decreases |keys| - i
  {
    if i < |keys| && Selected(names, keys[i]) {
      var st := KillStepOf(s, keys[i]);
      if st.KNext? {
        var acc' := if st.killed then acc + [keys[i]] else acc;
        assert KillFrom(s, keys, names, i, acc) == KillFrom(st.s, keys, names, i + 1, acc');
        KillKeepsOthers(st.s, keys, names, i + 1, acc', x);
      }
    } else if i < |keys| {
      KillKeepsOthers(s, keys, names, i + 1, acc, x);
    }
  }

  /** A job `kill_job` changes ends up killed. */
  lemma {:induction false} KillOnlyKills(s: JobSet, keys: seq<string>, names: Option<seq<string>>, i: nat, acc: seq<string>, x: string)
    requires s.Valid() && s.jobs.keys == keys && i <= |keys| && x in s.jobs.data
    ensures KeptOrKilled(s.jobs.data[x], KillFrom(s, keys, names, i, acc).s.jobs.data[x])
    decreases |keys| - i
  {
    if i < |keys| && Selected(names, keys[i]) {
      var st := KillStepOf(s, keys[i]);
      if st.KNext? {
        KillOnlyKills(st.s, keys, names, i + 1, if st.killed then acc + [keys[i]] else acc, x);
      }
      KillOnlyKillsStep(s, keys, names, i, acc, x);
    } else if i < |keys| {
      KillOnlyKills(s, keys, names, i + 1, acc, x);
    }
  }

  /** The inductive step of `KillOnlyKills`. */
  lemma KillOnlyKillsStep(s: JobSet, keys: seq<string>, names: Option<seq<string>>, i: nat, acc: seq<string>, x: string)
    requires s.Valid() && s.jobs.keys == keys && i < |keys| && x in s.jobs.data && Selected(names, keys[i])
    requires var st := KillStepOf(s, keys[i]);
      st.KNext? ==> KeptOrKilled(st.s.jobs.data[x], KillFrom(st.s, keys, names, i + 1, if st.killed then acc + [keys[i]] else acc).s.jobs.data[x])
    ensures KeptOrKilled(s.jobs.data[x], KillFrom(s, keys, names, i, acc).s.jobs.data[x])
  {
    var st := KillStepOf(s, keys[i]);
    KillFromUnfold(s, keys, names, i, acc);
    if st.KNext? {
      KeptOrKilledTrans(s.jobs.data[x], st.s.jobs.data[x], KillFrom(st.s, keys, names, i + 1, if st.killed then acc + [keys[i]] else acc).s.jobs.data[x]);
    }
  }

  /** `b` is `a`, or `a` was submitted and `b` is `a` marked killed. */
  predicate KeptOrKilled(a: Job, b: Job) {
    b == a || (a.status == StatusSubmitted && b == a.(status := StatusKilled))
  }

  lemma KeptOrKilledTrans(a: Job, b: Job, c: Job)
    requires KeptOrKilled(a, b) && KeptOrKilled(b, c)
    ensures KeptOrKilled(a, c)
  {
  }

  /** A job `kill_job` was not asked to kill is passed over. */
  lemma KillFromSkip(s: JobSet, keys: seq<string>, names: Option<seq<string>>, i: nat, acc: seq<string>)
    requires s.Valid() && s.jobs.keys == keys && i < |keys| && !Selected(names, keys[i])
    ensures KillFrom(s, keys, names, i, acc) == KillFrom(s, keys, names, i + 1, acc)
  {
  }

  /** One selected job's turn of `kill_job`: the rest of the run goes on
      from the state its step leaves, or the run ends there. */
  lemma KillFromUnfold(s: JobSet, keys: seq<string>, names: Option<seq<string>>, i: nat, acc: seq<string>)
    requires s.Valid() && s.jobs.keys == keys && i < |keys| && Selected(names, keys[i])
    ensures var st := KillStepOf(s, keys[i]);
      && (st.KNext? ==> KillFrom(s, keys, names, i, acc) == KillFrom(st.s, keys, names, i + 1, if st.killed then acc + [keys[i]] else acc))
      && (!st.KNext? ==> KillFrom(s, keys, names, i, acc).s == st.s)
  {
  }

  /** A `kill_job` that raised has marked a selected job killed first. */
  lemma {:induction false} KillRaisedAfterKilling(s: JobSet, keys: seq<string>, names: Option<seq<string>>, i: nat, acc: seq<string>)
    requires s.Valid() && s.jobs.keys == keys && i <= |keys|
    requires KillFrom(s, keys, names, i, acc).KillRaised?
    ensures exists x :: x in s.jobs.data && Selected(names, x) && KillFrom(s, keys, names, i, acc).s.jobs.data[x].status == StatusKilled
    decreases |keys| - i
  {
    var r := KillFrom(s, keys, names, i, acc);
    if Selected(names, keys[i]) {
      var st := KillStepOf(s, keys[i]);
      if st.KNext? {
        KillRaisedAfterKilling(st.s, keys, names, i + 1, if st.killed then acc + [keys[i]] else acc);
        var x :| x in st.s.jobs.data && Selected(names, x) && r.s.jobs.data[x].status == StatusKilled;
        assert x in s.jobs.data;
      } else {
        assert r.s.jobs.data[keys[i]].status == StatusKilled;
      }
    } else {
      KillRaisedAfterKilling(s, keys, names, i + 1, acc);
    }
  }

  /** No job from the `i`-th on is selected: `kill_job` finishes with the
      job set unchanged. */
  lemma {:induction false} KillNoneSelected(s: JobSet, keys: seq<string>, names: Option<seq<string>>, i: nat, acc: seq<string>)
    requires s.Valid() && s.jobs.keys == keys && i <= |keys|
    requires forall m :: i <= m < |keys| ==> !Selected(names, keys[m])
    ensures KillFrom(s, keys, names, i, acc) == KillDone(s, acc)
    decreases |keys| - i
  {
    if i < |keys| {
      KillNoneSelected(s, keys, names, i + 1, acc);
    }
  }

  /** `kill_job([name])` for a job in the set is that job's own turn. */
  lemma {:induction false} KillSingle(s: JobSet, keys: seq<string>, name: string, i: nat, j: nat, acc: seq<string>)
    requires s.Valid() && s.jobs.keys == keys && i <= j < |keys| && keys[j] == name
    ensures KillFrom(s, keys, Some([name]), i, acc).s == KillStepOf(s, name).s
    ensures KillFrom(s, keys, Some([name]), i, acc).KillRaised? <==> KillStepOf(s, name).KRaise?
    decreases j - i
  {
    if i < j {
      assert keys[i] != keys[j];
      assert KillFrom(s, keys, Some([name]), i, acc) == KillFrom(s, keys, Some([name]), i + 1, acc);
      KillSingle(s, keys, name, i + 1, j, acc);
    } else {
      KillSingleHere(s, keys, name, j, acc);
    }
  }

  /** The selected job's own turn, with no later job selected. */
  lemma KillSingleHere(s: JobSet, keys: seq<string>, name: string, j: nat, acc: seq<string>)
    requires s.Valid() && s.jobs.keys == keys && j < |keys| && keys[j] == name
    ensures KillFrom(s, keys, Some([name]), j, acc).s == KillStepOf(s, name).s
    ensures KillFrom(s, keys, Some([name]), j, acc).KillRaised? <==> KillStepOf(s, name).KRaise?
  {
    var st := KillStepOf(s, name);
    KillFromUnfold(s, keys, Some([name]), j, acc);
    if st.KNext? {
      forall m | j + 1 <= m < |keys|
        ensures !Selected(Some([name]), keys[m])
      {
        assert keys[m] != keys[j];
      }
      KillNoneSelected(st.s, keys, Some([name]), j + 1, if st.killed then acc + [keys[j]] else acc);
    }
  }

  /** One name's turn in `delete_job`: a missing name is skipped; a
      submitted job is killed first; the job is then removed unless the
      kill raised. */
  function DeleteStep(s: JobSet, name: string): (r: JobSet)
    requires s.Valid()
    ensures r.Valid() && r.policy == s.policy
    ensures name !in r.jobs.data || r.jobs.data[name].status == StatusKilled
    ensures forall x :: x in s.jobs.data && x != name ==> x in r.jobs.data && r.jobs.data[x] == s.jobs.data[x]
    ensures r.jobs.data.Keys <= s.jobs.data.Keys
    ensures name in s.jobs.data && name in r.jobs.data ==> KeptOrKilled(s.jobs.data[name], r.jobs.data[name])
  {
    if name !in s.jobs.data then s
    else if s.jobs.data[name].status != StatusSubmitted then s.(jobs := Remove(s.jobs, name))
    else
      match KillStepOf(s, name)
      case KRaise(s') => s'
      case KNext(s', _) => s'.(jobs := Remove(s'.jobs, name))
      case KMissingIp(s') => s'.(jobs := Remove(s'.jobs, name))
  }

  /** `delete_job(names)`: the names' turns in order. */
  function DeleteAll(s: JobSet, names: seq<string>): (r: JobSet)
    requires s.Valid()
    ensures r.Valid() && r.policy == s.policy
    ensures forall n :: n in names ==> n !in r.jobs.data || r.jobs.data[n].status == StatusKilled
    ensures forall x :: x in s.jobs.data && x !in names ==> x in r.jobs.data && r.jobs.data[x] == s.jobs.data[x]
    ensures r.jobs.data.Keys <= s.jobs.data.Keys
    decreases |names|
  {
    if names == [] then s
    else
      var r := DeleteAll(DeleteStep(s, names[0]), names[1..]);
      assert forall n :: n in names ==> n == names[0] || n in names[1..];
      r
  }

  /** Deleting a job that `run_job` just submitted kills it, which gives
      back the host table it started from, and removes it. */
  lemma DeleteAfterSubmit(s: JobSet, k: string, pick: nat)
    requires s.Valid() && k in s.jobs.data && s.jobs.data[k].status == StatusReady
    requires Choose(Availability(s.hosts), s.jobs.data[k].ip, s.policy, pick).Chosen?
    ensures SubmitStep(s, k, pick).Next?
    ensures var r := DeleteStep(SubmitStep(s, k, pick).s, k);
      && r.hosts == s.hosts
      && r.jobs.data == s.jobs.data - {k}
  {
    KillAfterSubmit(s, k, pick);
    var t := SubmitStep(s, k, pick).s;
    SubmitStepFacts(s, k, pick);
    assert DeleteStep(t, k).jobs.data == s.jobs.data - {k};
  }

  /** Deleting a job that is not submitted removes it and leaves the hosts'
      counters as they were. */
  lemma DeleteUnsubmitted(s: JobSet, name: string)
    requires s.Valid() && name in s.jobs.data && s.jobs.data[name].status != StatusSubmitted
    ensures var r := DeleteStep(s, name);
      && r.hosts == s.hosts
      && r.jobs.data == s.jobs.data - {name}
      && r.jobs.keys == Without(s.jobs.keys, name)
  {
  }

  // ---------------------------------------------------------------------
  // expand_args

  /** A value of the command-line arguments dict: a string or a list. */
  datatype Argument = Text(text: string) | Items(items: seq<string>)

  const Arg2Expanded: string := "arg2_expanded"

  /** `[x] * n`. */
  function Repeat(x: string, n: nat): (r: seq<string>)
    ensures |r| == n && forall i :: 0 <= i < n ==> r[i] == x
  {
    seq(n, _ => x)
  }

  /** What `expand_args` returns from `n` jobs, the raw value of `arg2` and
      its expansion: the expansion when the counts agree, the raw value
      repeated when one value serves many jobs, `None` (the `""`) for a
      mismatch. */
  function Expanded(n: nat, raw: string, expanded: seq<string>): (r: Option<seq<string>>)
    ensures r.Some? <==> n == |expanded| || (n > 1 && |expanded| == 1)
    ensures r.Some? ==> |r.value| == n
    ensures n > 1 && |expanded| == 1 ==> r == Some(Repeat(raw, n))
    ensures n == |expanded| ==> r == Some(expanded)
  {
    if n == 1 && |expanded| == 1 then Some(expanded)
    else if n > 1 && |expanded| == 1 then Some(Repeat(raw, n))
    else if n != |expanded| then None
    else Some(expanded)
  }

  /** The command-line arguments dict that `expand_args` writes into. */
  class Arguments {
    var entries: map<string, Argument>

    constructor (entries: map<string, Argument>)
      ensures this.entries == entries
    {
      this.entries := entries;
    }

    /** `expand_args(arg1, arg2, arguments)`; `expand` stands for
        `Parameter.expand`. The list left under `arg2_expanded` is the result,
        or the plain expansion on a mismatch. */
    method ExpandArgs(arg1: string, arg2: string, expand: string -> seq<string>) returns (r: Option<seq<string>>)
      requires arg1 in entries && entries[arg1].Items?
      requires arg2 in entries && entries[arg2].Text?
      modifies this`entries
      ensures r == Expanded(|old(entries)[arg1].items|, old(entries)[arg2].text, expand(old(entries)[arg2].text))
      ensures entries == old(entries)[Arg2Expanded := Items(if r.Some? then r.value else expand(old(entries)[arg2].text))]
    {
      var raw := entries[arg2].text;
      var n := |entries[arg1].items|;
      var e := expand(raw);
      entries := entries[Arg2Expanded := Items(e)];
      if n == 1 && |e| == 1 {
      } else if n > 1 && |e| == 1 {
        entries := entries[Arg2Expanded := Items(Repeat(raw, n))];
      } else if n != |e| {
        return None;
      }
      r := Some(entries[Arg2Expanded].items);
    }
  }

  // ---------------------------------------------------------------------
  // The queue object

  /** The deprecated `JobQueue`, holding the job set its methods update. */
  class JobQueue {
    var hosts: Store<Host>
    var jobs: Store<Job>
    var policy: string

    constructor (s: JobSet)
      requires s.Valid()
      ensures State() == s && Valid()
    {
      hosts, jobs, policy := s.hosts, s.jobs, s.policy;
    }

    function State(): JobSet
      reads this
    {
      JobSet(hosts, jobs, policy)
    }

    predicate Valid()
      reads this
    {
      hosts.Valid() && jobs.Valid()
    }

    /** `update_policy(policy)`: only the four known policies are accepted;
        any other leaves the policy unchanged and returns `""` (`false`). */
    method UpdatePolicy(p: string) returns (ok: bool)
      modifies this`policy
      ensures ok <==> KnownPolicy(p)
      ensures policy == (if ok then p else old(policy))
    {
      ok := KnownPolicy(p);
      if ok {
        policy := p;
      }
    }

    /** One job's turn in `run_job`: choose a host, and submit the job
        there when it is ready. */
    method Submit(k: string, pick: nat) returns (st: RunStep)
      requires Valid() && k in jobs.data
      modifies this`hosts, this`jobs
      ensures st == SubmitStep(old(State()), k, pick) && State() == st.s && Valid()
    {
      var v := jobs.data[k];
      var c := GetAvailableIp(v.ip, hosts, policy, pick);
      if c.Fails? {
        return Raise(State());
      }
      if c.NoPolicy? {
        return Stop(State(), SubmissionError);
      }
      if v.status != StatusReady {
        return Next(State(), Skipped(v.status));
      }
      jobs := Update(jobs, k, v.(status := StatusSubmitted, submittedToIp := Some(c.ip)));
      var h := GetHostname(hosts, c.ip);
      if h.None? {
        return Raise(State());
      }
      hosts := Charge(hosts, h.value, 1);
      st := Next(State(), Submitted(c.ip, PidLocation(v.output, k)));
    }

    /** The `i`-th job's turn of `run_job`: either the run ends here with
        its outcome, or it goes on from the new state with the reports so
        far. */
    method RunTurn(keys: seq<string>, names: Option<seq<string>>, picks: nat -> nat, i: nat, submitted: Store<Report>)
      returns (ended: Option<RunResult>, submitted': Store<Report>)
      requires Valid() && submitted.Valid() && jobs.keys == keys && i < |keys|
      modifies this`hosts, this`jobs
      ensures Valid() && jobs.keys == keys && submitted'.Valid()
      ensures ended.Some? ==> ended.value == RunFrom(old(State()), keys, names, picks, i, submitted) && State() == ended.value.s
      ensures ended.None? ==> RunFrom(State(), keys, names, picks, i + 1, submitted') == RunFrom(old(State()), keys, names, picks, i, submitted)
    {
      var k := keys[i];
      submitted' := submitted;
      ended := None;
      if Selected(names, k) {
        RunFromUnfold(State(), keys, names, picks, i, submitted);
        var st := Submit(k, picks(i));
        if st.Raise? {
          return Some(Raised(State())), submitted';
        }
        submitted' := Put(submitted, k, st.report);
        if st.Stop? {
          ended := Some(Done(State(), submitted'));
        }
      } else {
        RunFromSkip(State(), keys, names, picks, i, submitted);
      }
    }

    /** `run_job(names)`; `picks(i)` stands for the random choice made for
        the `i`-th job. */
    method RunJob(names: Option<seq<string>>, picks: nat -> nat) returns (r: RunResult)
      requires Valid()
      modifies this`hosts, this`jobs
      ensures r == RunFrom(old(State()), old(jobs.keys), names, picks, 0, Empty())
      ensures State() == r.s && Valid()
    {
      var keys := jobs.keys;
      var submitted: Store<Report> := Empty();
      var i := 0;
      while i < |keys|
        invariant i <= |keys| && Valid() && jobs.keys == keys && submitted.Valid()
        invariant RunFrom(State(), keys, names, picks, i, submitted) == RunFrom(old(State()), keys, names, picks, 0, Empty())
      {
        var ended;
        ended, submitted := RunTurn(keys, names, picks, i, submitted);
        if ended.Some? {
          return ended.value;
        }
        i := i + 1;
      }
      r := Done(State(), submitted);
    }

    /** One job's turn in `kill_job`: a submitted job is marked killed and
        its host runs one job fewer. */
    method Kill(k: string) returns (st: KillStep)
      requires Valid() && k in jobs.data
      modifies this`hosts, this`jobs
      ensures st == KillStepOf(old(State()), k) && State() == st.s && Valid()
    {
      var v := jobs.data[k];
      if v.status != StatusSubmitted {
        return KNext(State(), false);
      }
      if v.submittedToIp.None? {
        return KMissingIp(State());
      }
      jobs := Update(jobs, k, v.(status := StatusKilled));
      var h := GetHostname(hosts, v.submittedToIp.value);
      if h.None? {
        return KRaise(State());
      }
      hosts := Charge(hosts, h.value, -1);
      st := KNext(State(), true);
    }

    /** The `i`-th job's turn of `kill_job`: either the run ends here with
        its outcome, or it goes on from the new state with the names killed
        so far. */
    method KillTurn(keys: seq<string>, names: Option<seq<string>>, i: nat, killed: seq<string>)
      returns (ended: Option<KillResult>, killed': seq<string>)
      requires Valid() && jobs.keys == keys && i < |keys|
      modifies this`hosts, this`jobs
      ensures Valid() && jobs.keys == keys
      ensures ended.Some? ==> ended.value == KillFrom(old(State()), keys, names, i, killed) && State() == ended.value.s
      ensures ended.None? ==> KillFrom(State(), keys, names, i + 1, killed') == KillFrom(old(State()), keys, names, i, killed)
    {
      var k := keys[i];
      killed' := killed;
      ended := None;
      if Selected(names, k) {
        KillFromUnfold(State(), keys, names, i, killed);
        var st := Kill(k);
        if st.KMissingIp? {
          return Some(MissingIp(State())), killed';
        }
        if st.KRaise? {
          return Some(KillRaised(State())), killed';
        }
        if st.killed {
          killed' := killed + [k];
        }
      } else {
        KillFromSkip(State(), keys, names, i, killed);
      }
    }

    /** `kill_job(names)`. */
    method KillJob(names: Option<seq<string>>) returns (r: KillResult)
      requires Valid()
      modifies this`hosts, this`jobs
      ensures r == KillFrom(old(State()), old(jobs.keys), names, 0, [])
      ensures State() == r.s && Valid()
    {
      var keys := jobs.keys;
      var killed: seq<string> := [];
      var i := 0;
      while i < |keys|
        invariant i <= |keys| && Valid() && jobs.keys == keys
        invariant KillFrom(State(), keys, names, i, killed) == KillFrom(old(State()), keys, names, 0, [])
      {
        var ended;
        ended, killed := KillTurn(keys, names, i, killed);
        if ended.Some? {
          return ended.value;
        }
        i := i + 1;
      }
      r := KillDone(State(), killed);
    }

    /** One name's turn in `delete_job`: a submitted job is killed first,
        and the job is removed unless the kill raised. */
    method DeleteOne(name: string)
      requires Valid()
      modifies this`hosts, this`jobs
      ensures State() == DeleteStep(old(State()), name) && Valid()
      ensures name !in jobs.data || jobs.data[name].status == StatusKilled
      ensures forall k :: k in old(jobs.data) && k != name ==> k in jobs.data && jobs.data[k] == old(jobs.data)[k]
      ensures jobs.data.Keys <= old(jobs.data).Keys
    {
      if name in jobs.data {
        var raised := false;
        if jobs.data[name].status == StatusSubmitted {
          ghost var before := State();
          ghost var j :| 0 <= j < |jobs.keys| && jobs.keys[j] == name;
          var r := KillJob(Some([name]));
          KillSingle(before, before.jobs.keys, name, 0, j, []);
          raised := r.KillRaised?;
        }
        if !raised {
          jobs := Remove(jobs, name);
        }
      }
    }

    /** `delete_job(names)`: each named job is killed first when submitted,
        then removed; a missing name and a kill that raised are reported and
        skipped. Afterwards every named job is gone or killed, and every
        other job is as it was. */
    method DeleteJob(names: seq<string>)
      requires Valid()
      modifies this`hosts, this`jobs
      ensures State() == DeleteAll(old(State()), names) && Valid()
      ensures forall n :: n in names ==> n !in jobs.data || jobs.data[n].status == StatusKilled
      ensures forall k :: k in old(jobs.data) && k !in names ==> k in jobs.data && jobs.data[k] == old(jobs.data)[k]
      ensures jobs.data.Keys <= old(jobs.data).Keys
    {
      var i := 0;
      while i < |names|
        invariant i <= |names| && Valid() && policy == old(policy)
        invariant DeleteAll(State(), names[i..]) == DeleteAll(old(State()), names)
      {
        assert names[i..][1..] == names[i + 1..];
        DeleteOne(names[i]);
        i := i + 1;
      }
    }
  }

  // ---------------------------------------------------------------------
  // Two hosts with one IP

  /** With two hosts sharing an IP, the availability dict keeps the spare
      capacity of the later one, while `_get_hostname` charges the earlier
      one: a job lands on a host that is already full. */
  lemma SharedIpOverfills(a: string, b: string, ip: string, k: string, job: Job, policy: string, pick: nat)
    requires a != b && job.ip == ip && job.status == StatusReady
    ensures var hosts := Store([a, b], map[a := Host(ip, 1, 1), b := Host(ip, 1, 0)]);
      var s := JobSet(hosts, Store([k], map[k := job]), policy);
      && s.Valid()
      && SubmitStep(s, k, pick).Next?
      && SubmitStep(s, k, pick).s.hosts.data[a].jobCounter > SubmitStep(s, k, pick).s.hosts.data[a].maxJobsAllowed
  {
    var hosts := Store([a, b], map[a := Host(ip, 1, 1), b := Host(ip, 1, 0)]);
    var s := JobSet(hosts, Store([k], map[k := job]), policy);
    assert AvailabilityOf(hosts, 1) == Empty();
    assert Availability(hosts).data == map[ip := 1];
    assert HostnameFrom(hosts, ip, 0) == Some(a);
  }

  /** No host runs more jobs than it allows. */
  predicate WithinBudget(hosts: Store<Host>) {
    forall x :: x in hosts.data ==> hosts.data[x].jobCounter <= hosts.data[x].maxJobsAllowed
  }

  /** No two hosts share an IP. */
  predicate DistinctIps(hosts: Store<Host>) {
    forall x, y :: x in hosts.data && y in hosts.data && hosts.data[x].ip == hosts.data[y].ip ==> x == y
  }

  /** When no two hosts share an IP, submitting a job keeps every host
      within its budget. */
  lemma SubmitWithinBudget(s: JobSet, k: string, pick: nat)
    requires s.Valid() && k in s.jobs.data
    requires WithinBudget(s.hosts) && DistinctIps(s.hosts)
    ensures SubmitStep(s, k, pick).Next? ==> WithinBudget(SubmitStep(s, k, pick).s.hosts)
  {
    var v := s.jobs.data[k];
    var c := Choose(Availability(s.hosts), v.ip, s.policy, pick);
    if c.Chosen? && v.status == StatusReady {
      SubmitStepFacts(s, k, pick);
      ChosenHasSpare(s.hosts, v.ip, s.policy, pick);
      ChosenHasHostname(s.hosts, v.ip, s.policy, pick);
    }
  }
}
