/**
 * The table of JIT code ranges under concurrent registration and lookup.  Every load, store and
 * compare-exchange is one step; steps of different threads interleave in any order.
 */
module JitRace {
  import opened Options
  import opened JitTable

  /** What a registration writes. */
  datatype Job = Job(code: nat, end: nat, method_: nat)

  datatype Local =
    | Idle
    | Scanning(job: Job, i: nat)           // about to load the start of entry i
    | Claiming(job: Job, i: nat)           // saw 0, about to compare-exchange
    | Reserved(job: Job, i: nat)           // holds the marker, about to store the end
    | EndStored(job: Job, i: nat)          // about to store the method
    | MethodStored(job: Job, i: nat)       // about to publish the start
    | Updating(job: Job, i: nat)           // saw its own code, about to store the end
    | UpdatedEnd(job: Job, i: nat)         // about to store the method
    | Looking(pc: nat, i: nat)             // a reader, about to load the start
    | SawStart(pc: nat, i: nat, start: nat)
    | Passed(pc: nat, i: nat, start: nat, end: nat)   // the range check held, about to load the method
    | Found(start: nat, end: nat, method_: nat)

  /** jobs are the registrations begun so far. */
  datatype State = State(table: seq<Entry>, threads: seq<Local>, jobs: set<Job>)

  function Initial(entries: nat, threads: nat): State {
    State(seq(entries, _ => FREE), seq(threads, _ => Idle), {})
  }

  datatype Move = Register(t: nat, job: Job) | Lookup(t: nat, pc: nat) | Go(t: nat)

  function Put(s: State, t: nat, l: Local): State
    requires t < |s.threads|
  {
    s.(threads := s.threads[t := l])
  }

  function Store(s: State, i: nat, e: Entry): State
    requires i < |s.table|
  {
    s.(table := s.table[i := e])
  }

  /** The entry a thread is at, if it is at one. */
  function At(l: Local): Option<nat> {
    if l.Idle? || l.Found? then None else Some(l.i)
  }

  function Step(s: State, t: nat): Option<State>
    requires t < |s.threads|
  {
    var l := s.threads[t];
    if At(l).None? then None
    else if l.i >= |s.table| then Some(Put(s, t, Idle))
    else
      var e := s.table[l.i];
      match l
      case Scanning(job, i) =>
        Some(Put(s, t, if e.start == job.code then Updating(job, i)
                       else if e.start == 0 then Claiming(job, i)
                       else Scanning(job, i + 1)))
      case Claiming(job, i) =>
        if e.start == 0 then Some(Put(Store(s, i, e.(start := 1)), t, Reserved(job, i)))
        else Some(Put(s, t, Scanning(job, i + 1)))
      case Reserved(job, i) => Some(Put(Store(s, i, e.(end := job.end)), t, EndStored(job, i)))
      case EndStored(job, i) => Some(Put(Store(s, i, e.(method_ := job.method_)), t, MethodStored(job, i)))
      case MethodStored(job, i) => Some(Put(Store(s, i, e.(start := job.code)), t, Idle))
      case Updating(job, i) => Some(Put(Store(s, i, e.(end := job.end)), t, UpdatedEnd(job, i)))
      case UpdatedEnd(job, i) => Some(Put(Store(s, i, e.(method_ := job.method_)), t, Idle))
      case Looking(pc, i) => Some(Put(s, t, SawStart(pc, i, e.start)))
      case SawStart(pc, i, start) =>
        Some(Put(s, t, if start > 1 && start <= pc < e.end then Passed(pc, i, start, e.end) else Looking(pc, i + 1)))
      case Passed(pc, i, start, end) => Some(Put(s, t, Found(start, end, e.method_)))
      case _ => None
  }

  /** A registration of code 0 returns at once. */
  function Next(s: State, move: Move): Option<State> {
    if move.t >= |s.threads| then None
    else match move
      case Register(t, job) =>
        if s.threads[t] != Idle then None
        else if job.code == 0 then Some(s)
        else Some(Put(s.(jobs := s.jobs + {job}), t, Scanning(job, 0)))
      case Lookup(t, pc) =>
        if (!s.threads[t].Idle? && !s.threads[t].Found?) || pc == 0 then None else Some(Put(s, t, Looking(pc, 0)))
      case Go(t) => Step(s, t)
  }

  function Run(s: State, moves: seq<Move>): Option<State> {
    if moves == [] then Some(s)
    else
      var before := Run(s, moves[..|moves| - 1]);
      if before.None? then None else Next(before.value, moves[|moves| - 1])
  }

  // Invariants

  /** Some registration of this code, or of code 1, wrote this end, or this method. */
  ghost predicate WroteEnd(jobs: set<Job>, code: nat, end: nat) {
    exists job :: job in jobs && (job.code == code || job.code == 1) && job.end == end
  }

  ghost predicate WroteMethod(jobs: set<Job>, code: nat, method_: nat) {
    exists job :: job in jobs && (job.code == code || job.code == 1) && job.method_ == method_
  }

  ghost predicate Registered(jobs: set<Job>, code: nat) {
    exists job :: job in jobs && job.code == code
  }

  ghost predicate Wrote(jobs: set<Job>, code: nat, end: nat, method_: nat) {
    Registered(jobs, code) && WroteEnd(jobs, code, end) && WroteMethod(jobs, code, method_)
  }

  ghost predicate Published(e: Entry, jobs: set<Job>) {
    e.start > 1 ==> Wrote(jobs, e.start, e.end, e.method_)
  }

  predicate Owns(l: Local) { l.Reserved? || l.EndStored? || l.MethodStored? }

  predicate HasJob(l: Local) { l.Scanning? || l.Claiming? || Owns(l) || l.Updating? || l.UpdatedEnd? }

  /** What a thread may rely on about the table. */
  ghost predicate Knows(l: Local, table: seq<Entry>, jobs: set<Job>) {
    && (HasJob(l) ==> l.job in jobs && l.job.code > 0)
    && (Owns(l) ==> l.i < |table| && table[l.i].start == 1)
    && ((l.EndStored? || l.MethodStored?) ==> WroteEnd(jobs, l.job.code, table[l.i].end))
    && (l.MethodStored? ==> WroteMethod(jobs, l.job.code, table[l.i].method_))
    && ((l.Updating? || l.UpdatedEnd?) && l.job.code > 1 ==> l.i < |table| && table[l.i].start == l.job.code)
    && (l.SawStart? && l.start > 1 ==> l.i < |table| && table[l.i].start == l.start)
    && (l.Passed? ==> l.i < |table| && table[l.i].start == l.start && WroteEnd(jobs, l.start, l.end))
    && (l.Passed? || l.Found? ==> 1 < l.start < l.end)
    && (l.Found? ==> Wrote(jobs, l.start, l.end, l.method_))
  }

  ghost predicate Inv(s: State) {
    && (forall i :: 0 <= i < |s.table| ==> Published(s.table[i], s.jobs))
    && (forall t :: 0 <= t < |s.threads| ==> Knows(s.threads[t], s.table, s.jobs))
    && OneOwner(s.threads)
  }

  /** An entry being published belongs to one thread. */
  ghost predicate OneOwner(threads: seq<Local>) {
    forall t, u :: 0 <= t < u < |threads| && Owns(threads[t]) && Owns(threads[u]) ==> threads[t].i != threads[u].i
  }

  /** A published start never changes. */
  ghost predicate Stable(table: seq<Entry>, table': seq<Entry>) {
    |table'| == |table| && forall i :: 0 <= i < |table| && table[i].start > 1 ==> table'[i].start == table[i].start
  }

  lemma StepStable(s: State, move: Move)
    requires Inv(s) && Next(s, move).Some?
    ensures Stable(s.table, Next(s, move).value.table)
  {
    assert Knows(s.threads[move.t], s.table, s.jobs);
  }

  lemma WroteMore(jobs: set<Job>, job: Job, code: nat, end: nat, method_: nat)
    ensures WroteEnd(jobs, code, end) ==> WroteEnd(jobs + {job}, code, end)
    ensures WroteMethod(jobs, code, method_) ==> WroteMethod(jobs + {job}, code, method_)
    ensures Registered(jobs, code) ==> Registered(jobs + {job}, code)
  {
    var more := jobs + {job};
    assert forall j :: j in jobs ==> j in more;
  }

  lemma JobsGrow(l: Local, table: seq<Entry>, jobs: set<Job>, job: Job)
    requires Knows(l, table, jobs)
    ensures Knows(l, table, jobs + {job})
  {
    hide WroteEnd, WroteMethod, Registered;
    if l.EndStored? || l.MethodStored? {
      WroteMore(jobs, job, l.job.code, table[l.i].end, table[l.i].method_);
    } else if l.Passed? {
      WroteMore(jobs, job, l.start, l.end, 0);
    } else if l.Found? {
      WroteMore(jobs, job, l.start, l.end, l.method_);
    }
  }

  /** A write that keeps a published start does not disturb a thread that does not own the entry. */
  lemma OthersKnow(l: Local, table: seq<Entry>, jobs: set<Job>, i: nat, e: Entry)
    requires Knows(l, table, jobs) && i < |table| && !(Owns(l) && l.i == i)
    requires table[i].start > 1 ==> e.start == table[i].start
    ensures Knows(l, table[i := e], jobs)
  {
  }

  /** A thread other than the writer cannot own the entry being written. */
  lemma NotOwned(s: State, t: nat, u: nat, i: nat)
    requires Inv(s) && t < |s.threads| && u < |s.threads| && t != u && i < |s.table|
    requires s.table[i].start != 1 || (Owns(s.threads[t]) && s.threads[t].i == i)
    ensures !(Owns(s.threads[u]) && s.threads[u].i == i)
  {
    assert Knows(s.threads[u], s.table, s.jobs);
  }

  /** One thread writes one entry and moves on. */
  lemma WriteKeeps(s: State, t: nat, i: nat, e: Entry, l: Local)
    requires Inv(s) && t < |s.threads| && i < |s.table| && Published(e, s.jobs)
    requires s.table[i].start != 1 || (Owns(s.threads[t]) && s.threads[t].i == i)
    requires s.table[i].start > 1 ==> e.start == s.table[i].start
    requires Knows(l, s.table[i := e], s.jobs) && (Owns(l) ==> l.i == i)
    ensures Inv(Put(Store(s, i, e), t, l))
  {
    hide Knows, Published;
    var s' := Put(Store(s, i, e), t, l);
    forall u | 0 <= u < |s'.threads| ensures Knows(s'.threads[u], s'.table, s'.jobs) {
      if u != t {
        NotOwned(s, t, u, i);
        OthersKnow(s.threads[u], s.table, s.jobs, i, e);
      }
    }
    forall u, v | 0 <= u < v < |s'.threads| && Owns(s'.threads[u]) && Owns(s'.threads[v])
      ensures s'.threads[u].i != s'.threads[v].i
    {
      if u == t { NotOwned(s, t, v, i); } else if v == t { NotOwned(s, t, u, i); }
    }
  }

  /** An end or a method that a registration of code 1 wrote may stand in any entry. */
  ghost predicate Patches(e: Entry, e': Entry, jobs: set<Job>) {
    && e'.start == e.start
    && (e'.end == e.end || WroteEnd(jobs, 1, e'.end)) && (e'.method_ == e.method_ || WroteMethod(jobs, 1, e'.method_))
  }

  lemma PatchKnown(l: Local, table: seq<Entry>, jobs: set<Job>, i: nat, e: Entry)
    requires Knows(l, table, jobs) && i < |table| && Patches(table[i], e, jobs)
    ensures Knows(l, table[i := e], jobs)
  {
  }

  lemma PatchPublished(e: Entry, e': Entry, jobs: set<Job>)
    requires Published(e, jobs) && Patches(e, e', jobs)
    ensures Published(e', jobs)
  {
  }

  /** A registration of code 1 writes an entry that may be another's. */
  lemma PatchKeeps(s: State, t: nat, i: nat, e: Entry, l: Local)
    requires Inv(s) && t < |s.threads| && i < |s.table| && Patches(s.table[i], e, s.jobs)
    requires Knows(l, s.table[i := e], s.jobs) && !Owns(l)
    ensures Inv(Put(Store(s, i, e), t, l))
  {
    hide Knows, Published, Patches;
    var s' := Put(Store(s, i, e), t, l);
    PatchPublished(s.table[i], e, s.jobs);
    forall u | 0 <= u < |s'.threads| ensures Knows(s'.threads[u], s'.table, s'.jobs) {
      if u != t { PatchKnown(s.threads[u], s.table, s.jobs, i, e); }
    }
  }

  /** A thread only moves on. */
  lemma MoveKeeps(s: State, t: nat, l: Local)
    requires Inv(s) && t < |s.threads| && Knows(l, s.table, s.jobs) && !Owns(l)
    ensures Inv(Put(s, t, l))
  {
    hide Knows, Published;
  }

  lemma Told(s: State, t: nat)
    requires Inv(s) && t < |s.threads|
    ensures Knows(s.threads[t], s.table, s.jobs)
    ensures At(s.threads[t]).Some? && s.threads[t].i < |s.table| ==> Published(s.table[s.threads[t].i], s.jobs)
  {
  }

  lemma UpdateKeeps(s: State, t: nat)
    requires Inv(s) && t < |s.threads| && Step(s, t).Some? && s.threads[t].i < |s.table|
    requires s.threads[t].Updating? || s.threads[t].UpdatedEnd?
    ensures Inv(Step(s, t).value)
  {
    hide Inv;
    Told(s, t);
    var l, i := s.threads[t], s.threads[t].i;
    var s' := Step(s, t).value;
    if l.job.code == 1 {
      PatchKeeps(s, t, i, s'.table[i], s'.threads[t]);
    } else {
      WriteKeeps(s, t, i, s'.table[i], s'.threads[t]);
    }
  }

  lemma WriterKeeps(s: State, t: nat)
    requires Inv(s) && t < |s.threads| && Step(s, t).Some? && HasJob(s.threads[t])
    ensures Inv(Step(s, t).value)
  {
    hide Inv;
    Told(s, t);
    var l := s.threads[t];
    if l.i >= |s.table| {
      MoveKeeps(s, t, Idle);
    } else {
      var e, i := s.table[l.i], l.i;
      match l
      case Scanning(job, _) => MoveKeeps(s, t, Step(s, t).value.threads[t]);
      case Claiming(job, _) =>
        if e.start == 0 {
          WriteKeeps(s, t, i, e.(start := 1), Reserved(job, i));
        } else {
          MoveKeeps(s, t, Scanning(job, i + 1));
        }
      case Reserved(job, _) => WriteKeeps(s, t, i, e.(end := job.end), EndStored(job, i));
      case EndStored(job, _) => WriteKeeps(s, t, i, e.(method_ := job.method_), MethodStored(job, i));
      case MethodStored(job, _) => WriteKeeps(s, t, i, e.(start := job.code), Idle);
      case _ => UpdateKeeps(s, t);
    }
  }

  lemma ReaderKeeps(s: State, t: nat)
    requires Inv(s) && t < |s.threads| && Step(s, t).Some? && !HasJob(s.threads[t])
    ensures Inv(Step(s, t).value)
  {
    hide Inv;
    Told(s, t);
    MoveKeeps(s, t, Step(s, t).value.threads[t]);
  }

  lemma RegisterKeeps(s: State, t: nat, job: Job)
    requires Inv(s) && t < |s.threads| && job.code > 0
    ensures Inv(Put(s.(jobs := s.jobs + {job}), t, Scanning(job, 0)))
  {
    forall u | 0 <= u < |s.threads| ensures Knows(s.threads[u], s.table, s.jobs + {job}) {
      JobsGrow(s.threads[u], s.table, s.jobs, job);
    }
    forall i | 0 <= i < |s.table| ensures Published(s.table[i], s.jobs + {job}) {
      assert Published(s.table[i], s.jobs);
      WroteMore(s.jobs, job, s.table[i].start, s.table[i].end, s.table[i].method_);
    }
    MoveKeeps(s.(jobs := s.jobs + {job}), t, Scanning(job, 0));
  }

  lemma NextKeeps(s: State, move: Move)
    requires Inv(s) && Next(s, move).Some?
    ensures Inv(Next(s, move).value)
  {
    hide Inv, Step, Put;
    match move
    case Register(t, job) => if job.code > 0 { RegisterKeeps(s, t, job); }
    case Lookup(t, pc) => MoveKeeps(s, t, Looking(pc, 0));
    case Go(t) => if HasJob(s.threads[t]) { WriterKeeps(s, t); } else { ReaderKeeps(s, t); }
  }

  /** Any number of registrations and lookups in any interleaving. */
  lemma {:induction false} RunKeepsInv(entries: nat, threads: nat, moves: seq<Move>)
    requires Run(Initial(entries, threads), moves).Some?
    ensures Inv(Run(Initial(entries, threads), moves).value)
  {
    hide Next;
    if moves != [] {
      RunKeepsInv(entries, threads, moves[..|moves| - 1]);
      NextKeeps(Run(Initial(entries, threads), moves[..|moves| - 1]).value, moves[|moves| - 1]);
    }
  }

  /** Between any two points of a run a published start stays. */
  lemma {:induction false} RunStable(entries: nat, threads: nat, moves: seq<Move>, k: nat)
    requires Run(Initial(entries, threads), moves).Some? && k <= |moves|
    ensures Run(Initial(entries, threads), moves[..k]).Some?
    ensures Stable(Run(Initial(entries, threads), moves[..k]).value.table,
                   Run(Initial(entries, threads), moves).value.table)
    decreases |moves|
  {
    hide Next;
    if k == |moves| {
      assert moves[..k] == moves;
    } else {
      var front := moves[..|moves| - 1];
      assert front[..k] == moves[..k];
      RunStable(entries, threads, front, k);
      RunKeepsInv(entries, threads, front);
      StepStable(Run(Initial(entries, threads), front).value, moves[|moves| - 1]);
    }
  }

  /**
   * What a reader returns is a code registered, with an end above it and a method, each written by some
   * registration of that code, or of code 1 if there was one.
   */
  lemma FoundIsWritten(entries: nat, threads: nat, moves: seq<Move>, t: nat)
    requires Run(Initial(entries, threads), moves).Some?
    requires var s := Run(Initial(entries, threads), moves).value; t < |s.threads| && s.threads[t].Found?
    ensures var s := Run(Initial(entries, threads), moves).value;
            var l := s.threads[t];
            1 < l.start < l.end && Wrote(s.jobs, l.start, l.end, l.method_)
    ensures var s := Run(Initial(entries, threads), moves).value;
            var l := s.threads[t];
            !Registered(s.jobs, 1) ==>
              exists j, k :: j in s.jobs && k in s.jobs && j.code == k.code == l.start && Joins(j, k, l)
  {
    hide Next;
    RunKeepsInv(entries, threads, moves);
    var s := Run(Initial(entries, threads), moves).value;
    var l := s.threads[t];
    Told(s, t);
    if !Registered(s.jobs, 1) {
      var j :| j in s.jobs && (j.code == l.start || j.code == 1) && j.end == l.end;
      var k :| k in s.jobs && (k.code == l.start || k.code == 1) && k.method_ == l.method_;
      assert Joins(j, k, l);
    }
  }

  predicate Joins(j: Job, k: Job, l: Local) { l.Found? && j.end == l.end && k.method_ == l.method_ }

  // Which registrations a reader can see mixed

  ghost predicate Within(moves: seq<Move>, jobs: set<Job>) {
    forall i :: 0 <= i < |moves| && moves[i].Register? ==> moves[i].job in jobs
  }

  /** What every reader that passed its check returns is one registration. */
  ghost predicate ReadsWhole(s: State) {
    forall t :: 0 <= t < |s.threads| && s.threads[t].Found? ==>
      var l := s.threads[t]; Job(l.start, l.end, l.method_) in s.jobs
  }

  /**
   * Registrations of one code agree in end or in method; one of code 1 agrees with every other in both, as
   * far as a reader could tell.
   */
  ghost predicate Agree(a: Job, b: Job) {
    && (1 < a.code == b.code < b.end ==> a.end == b.end || a.method_ == b.method_)
    && (b.code == 1 < a.code < b.end ==> a.end == b.end)
    && (b.code == 1 < a.code < a.end ==> a.method_ == b.method_)
  }

  ghost predicate AllAgree(jobs: set<Job>) {
    forall a, b :: a in jobs && b in jobs ==> Agree(a, b)
  }

  /** Whatever is written by agreeing registrations and can be seen is one of them. */
  lemma AgreeingIsWhole(jobs: set<Job>, start: nat, end: nat, method_: nat)
    requires AllAgree(jobs) && Wrote(jobs, start, end, method_) && 1 < start < end
    ensures Job(start, end, method_) in jobs
  {
    var a :| a in jobs && a.code == start;
    var j :| j in jobs && (j.code == start || j.code == 1) && j.end == end;
    var k :| k in jobs && (k.code == start || k.code == 1) && k.method_ == method_;
    assert Agree(a, j) && Agree(a, k) && Agree(k, j) && Agree(j, k);
    var job := Job(start, end, method_);
    assert a == job || j == job || k == job;
  }

  lemma {:induction false} JobsWithin(entries: nat, threads: nat, moves: seq<Move>, jobs: set<Job>)
    requires Run(Initial(entries, threads), moves).Some? && Within(moves, jobs)
    ensures Run(Initial(entries, threads), moves).value.jobs <= jobs
  {
    hide Step;
    if moves != [] {
      var front := moves[..|moves| - 1];
      assert forall i :: 0 <= i < |front| ==> front[i] == moves[i];
      JobsWithin(entries, threads, front, jobs);
      StepJobs(Run(Initial(entries, threads), front).value, moves[|moves| - 1]);
    }
  }

  lemma StepJobs(s: State, move: Move)
    requires Next(s, move).Some?
    ensures Next(s, move).value.jobs == if move.Register? && move.job.code > 0 then s.jobs + {move.job} else s.jobs
  {
  }

  /** With agreeing registrations every read is one registration, in every interleaving. */
  lemma FoundIsRegistered(entries: nat, threads: nat, moves: seq<Move>, jobs: set<Job>)
    requires Run(Initial(entries, threads), moves).Some? && Within(moves, jobs) && AllAgree(jobs)
    ensures ReadsWhole(Run(Initial(entries, threads), moves).value)
  {
    hide Next, Agree, Wrote;
    RunKeepsInv(entries, threads, moves);
    JobsWithin(entries, threads, moves, jobs);
    var s := Run(Initial(entries, threads), moves).value;
    forall t | 0 <= t < |s.threads| && s.threads[t].Found?
      ensures var l := s.threads[t]; Job(l.start, l.end, l.method_) in s.jobs
    {
      Told(s, t);
      AgreeingIsWhole(s.jobs, s.threads[t].start, s.threads[t].end, s.threads[t].method_);
    }
  }

  lemma Extend(s: State, moves: seq<Move>, move: Move) returns (more: seq<Move>)
    requires Run(s, moves).Some?
    ensures more == moves + [move] && Run(s, more) == Next(Run(s, moves).value, move)
  {
    hide Next;
    more := moves + [move];
    assert more[..|more| - 1] == moves;
  }

  /** One entry and three threads, as they stand. */
  datatype View = View(e: Entry, l0: Local, l1: Local, l2: Local, jobs: set<Job>)

  function Of(v: View): State { State([v.e], [v.l0, v.l1, v.l2], v.jobs) }

  ghost predicate Shows(s: State, v: View) {
    && |s.table| == 1 && s.table[0] == v.e
    && |s.threads| == 3 && s.threads[0] == v.l0 && s.threads[1] == v.l1 && s.threads[2] == v.l2
    && s.jobs == v.jobs
  }

  ghost predicate Leads(v: View, move: Move, w: View) {
    Next(Of(v), move).Some? && Shows(Next(Of(v), move).value, w)
  }

  ghost predicate Reaches(moves: seq<Move>, v: View) {
    Run(Initial(1, 3), moves) == Some(Of(v)) && Within(moves, v.jobs)
  }

  lemma Turn(moves: seq<Move>, v: View, move: Move, w: View) returns (more: seq<Move>)
    requires Reaches(moves, v) && Leads(v, move, w) && v.jobs <= w.jobs && (move.Register? ==> move.job in w.jobs)
    ensures Reaches(more, w)
  {
    hide Next;
    more := Extend(Initial(1, 3), moves, move);
    var s := Next(Of(v), move).value;
    assert s.table == [w.e] && s.threads == [w.l0, w.l1, w.l2];
  }

  lemma Begins()
    ensures Reaches([], View(FREE, Idle, Idle, Idle, {}))
  {
    assert Initial(1, 3).table == [FREE] && Initial(1, 3).threads == [Idle, Idle, Idle];
  }

  /** A reader goes through an entry that holds this code. */
  lemma Reads(moves: seq<Move>, v: View) returns (more: seq<Move>)
    requires Reaches(moves, v) && v.l2 == Idle && 1 < v.e.start < v.e.end
    ensures Reaches(more, v.(l2 := Found(v.e.start, v.e.end, v.e.method_)))
  {
    hide Run, Reaches;
    var pc := v.e.start;
    var v1 := v.(l2 := Looking(pc, 0));
    more := Turn(moves, v, Lookup(2, pc), v1);
    var v2 := v1.(l2 := SawStart(pc, 0, pc));
    more := Turn(more, v1, Go(2), v2);
    var v3 := v2.(l2 := Passed(pc, 0, pc, v.e.end));
    more := Turn(more, v2, Go(2), v3);
    more := Turn(more, v3, Go(2), v3.(l2 := Found(pc, v.e.end, v.e.method_)));
  }

  /** The first thread holds the marker. */
  lemma Claims(a: Job) returns (moves: seq<Move>)
    requires a.code > 1
    ensures Reaches(moves, View(Entry(1, 0, 0), Reserved(a, 0), Idle, Idle, {a}))
  {
    hide Run, Reaches;
    var v0 := View(FREE, Idle, Idle, Idle, {});
    Begins();
    var v1 := v0.(l0 := Scanning(a, 0), jobs := {a});
    moves := Turn([], v0, Register(0, a), v1);
    var v2 := v1.(l0 := Claiming(a, 0));
    moves := Turn(moves, v1, Go(0), v2);
    moves := Turn(moves, v2, Go(0), v2.(e := Entry(1, 0, 0), l0 := Reserved(a, 0)));
  }

  lemma Publishes(a: Job) returns (moves: seq<Move>)
    requires a.code > 1
    ensures Reaches(moves, View(Entry(a.code, a.end, a.method_), Idle, Idle, Idle, {a}))
  {
    hide Run, Reaches;
    moves := Claims(a);
    var v0 := View(Entry(1, 0, 0), Reserved(a, 0), Idle, Idle, {a});
    var v1 := v0.(e := Entry(1, a.end, 0), l0 := EndStored(a, 0));
    moves := Turn(moves, v0, Go(0), v1);
    var v2 := v1.(e := Entry(1, a.end, a.method_), l0 := MethodStored(a, 0));
    moves := Turn(moves, v1, Go(0), v2);
    moves := Turn(moves, v2, Go(0), v2.(e := Entry(a.code, a.end, a.method_), l0 := Idle));
  }

  /** A second registration of the code in an entry is about to store its end there. */
  lemma Updates(moves: seq<Move>, v: View, b: Job) returns (more: seq<Move>)
    requires Reaches(moves, v) && v.l1 == Idle && v.e.start == b.code > 0
    ensures Reaches(more, v.(l1 := Updating(b, 0), jobs := v.jobs + {b}))
  {
    hide Run, Reaches;
    var v1 := v.(l1 := Scanning(b, 0), jobs := v.jobs + {b});
    more := Turn(moves, v, Register(1, b), v1);
    more := Turn(more, v1, Go(1), v1.(l1 := Updating(b, 0)));
  }

  /** A reader between the two stores of a second registration of the same code sees the new end with the old method. */
  lemma UpdateTears(a: Job, b: Job) returns (moves: seq<Move>, s: State)
    requires 1 < a.code == b.code < b.end && a.end != b.end && a.method_ != b.method_
    ensures Run(Initial(1, 3), moves) == Some(s) && s.jobs == {a, b} && |s.threads| == 3
    ensures s.threads[2] == Found(a.code, b.end, a.method_) && Job(a.code, b.end, a.method_) !in s.jobs
    ensures Within(moves, {a, b})
  {
    hide Run;
    moves := Publishes(a);
    var v0 := View(Entry(a.code, a.end, a.method_), Idle, Idle, Idle, {a});
    moves := Updates(moves, v0, b);
    var v1 := v0.(l1 := Updating(b, 0), jobs := {a} + {b});
    var v2 := v1.(e := Entry(a.code, b.end, a.method_), l1 := UpdatedEnd(b, 0));
    moves := Turn(moves, v1, Go(1), v2);
    moves := Reads(moves, v2);
    s := Of(v2.(l2 := Found(a.code, b.end, a.method_)));
    assert {a} + {b} == {a, b};
  }

  /** The marker is taken for code 1 while its owner is about to store the end. */
  lemma MarkerTaken(a: Job, b: Job) returns (moves: seq<Move>)
    requires a.code > 1 && b.code == 1
    ensures Reaches(moves, View(Entry(1, 0, 0), Reserved(a, 0), Updating(b, 0), Idle, {a, b}))
  {
    hide Run, Reaches;
    moves := Claims(a);
    moves := Updates(moves, View(Entry(1, 0, 0), Reserved(a, 0), Idle, Idle, {a}), b);
    assert {a} + {b} == {a, b};
  }

  /**
   * Code address 1 equals the publishing marker: its registration takes an entry that another thread is
   * publishing for its own and leaves an end that no registration of the published code wrote.
   */
  lemma MarkerMixesEnd(a: Job, b: Job) returns (moves: seq<Move>, s: State)
    requires b.code == 1 < a.code < b.end && a.end != b.end
    ensures Run(Initial(1, 3), moves) == Some(s) && s.jobs == {a, b} && |s.threads| == 3
    ensures s.threads[2] == Found(a.code, b.end, a.method_) && Job(a.code, b.end, a.method_) !in s.jobs
    ensures Within(moves, {a, b})
  {
    hide Run;
    moves := MarkerTaken(a, b);
    var v0 := View(Entry(1, 0, 0), Reserved(a, 0), Updating(b, 0), Idle, {a, b});
    var v1 := v0.(e := Entry(1, a.end, 0), l0 := EndStored(a, 0));
    moves := Turn(moves, v0, Go(0), v1);
    var v2 := v1.(e := Entry(1, b.end, 0), l1 := UpdatedEnd(b, 0));
    moves := Turn(moves, v1, Go(1), v2);
    var v3 := v2.(e := Entry(1, b.end, a.method_), l0 := MethodStored(a, 0));
    moves := Turn(moves, v2, Go(0), v3);
    var v4 := v3.(e := Entry(a.code, b.end, a.method_), l0 := Idle);
    moves := Turn(moves, v3, Go(0), v4);
    moves := Reads(moves, v4);
    s := Of(v4.(l2 := Found(a.code, b.end, a.method_)));
  }

  /** Or a method that no registration of the published code wrote. */
  lemma MarkerMixesMethod(a: Job, b: Job) returns (moves: seq<Move>, s: State)
    requires b.code == 1 < a.code < a.end && a.method_ != b.method_
    ensures Run(Initial(1, 3), moves) == Some(s) && s.jobs == {a, b} && |s.threads| == 3
    ensures s.threads[2] == Found(a.code, a.end, b.method_) && Job(a.code, a.end, b.method_) !in s.jobs
    ensures Within(moves, {a, b})
  {
    hide Run;
    moves := MarkerTaken(a, b);
    var v0 := View(Entry(1, 0, 0), Reserved(a, 0), Updating(b, 0), Idle, {a, b});
    var v1 := v0.(e := Entry(1, b.end, 0), l1 := UpdatedEnd(b, 0));
    moves := Turn(moves, v0, Go(1), v1);
    var v2 := v1.(e := Entry(1, a.end, 0), l0 := EndStored(a, 0));
    moves := Turn(moves, v1, Go(0), v2);
    var v3 := v2.(e := Entry(1, a.end, a.method_), l0 := MethodStored(a, 0));
    moves := Turn(moves, v2, Go(0), v3);
    var v4 := v3.(e := Entry(1, a.end, b.method_), l1 := Idle);
    moves := Turn(moves, v3, Go(1), v4);
    var v5 := v4.(e := Entry(a.code, a.end, b.method_), l0 := Idle);
    moves := Turn(moves, v4, Go(0), v5);
    moves := Reads(moves, v5);
    s := Of(v5.(l2 := Found(a.code, a.end, b.method_)));
  }

  /** Whatever the table size, the threads and the interleaving, reads of these registrations are whole. */
  ghost predicate AlwaysWhole(jobs: set<Job>) {
    forall entries: nat, threads: nat, moves: seq<Move> ::
      Within(moves, jobs) && Run(Initial(entries, threads), moves).Some? ==>
        ReadsWhole(Run(Initial(entries, threads), moves).value)
  }

  lemma DisagreeingMix(a: Job, b: Job) returns (moves: seq<Move>, s: State)
    requires !Agree(a, b)
    ensures Run(Initial(1, 3), moves) == Some(s) && Within(moves, {a, b}) && !ReadsWhole(s)
  {
    hide Run, Within;
    if a.code == b.code {
      moves, s := UpdateTears(a, b);
    } else if a.code < b.end && a.end != b.end {
      moves, s := MarkerMixesEnd(a, b);
    } else {
      moves, s := MarkerMixesMethod(a, b);
    }
    assert s.threads[2].Found?;
  }

  /** Registrations are read whole in every run exactly when they agree. */
  lemma WholeIff(jobs: set<Job>)
    ensures AlwaysWhole(jobs) <==> AllAgree(jobs)
  {
    hide Run, ReadsWhole, Agree;
    if AllAgree(jobs) {
      forall entries: nat, threads: nat, moves: seq<Move>
        | Within(moves, jobs) && Run(Initial(entries, threads), moves).Some?
        ensures ReadsWhole(Run(Initial(entries, threads), moves).value)
      {
        FoundIsRegistered(entries, threads, moves, jobs);
      }
    } else {
      var a, b :| a in jobs && b in jobs && !Agree(a, b);
      var moves, s := DisagreeingMix(a, b);
      assert Within(moves, jobs);
    }
  }

  // One thread at a time

  ghost predicate FirstSpot(table: seq<Entry>, code: nat, i: nat) {
    && i <= |table| && (i < |table| ==> table[i].start == code || table[i].start == 0)
    && forall j :: 0 <= j < i ==> table[j].start != code && table[j].start != 0
  }

  /** A registration that is not disturbed fills the first entry that is free or has its code. */
  lemma {:induction false} WritesAlone(s0: State, moves: seq<Move>, s: State, t: nat, spot: nat)
    returns (more: seq<Move>, s': State)
    requires Run(s0, moves) == Some(s) && t < |s.threads| && s.threads[t].Scanning? && s.threads[t].i <= spot
    requires s.threads[t].job.code > 0 && FirstSpot(s.table, s.threads[t].job.code, spot)
    ensures var job := s.threads[t].job;
            && Run(s0, more) == Some(s') && s'.jobs == s.jobs && s'.threads == s.threads[t := Idle]
            && s'.table == if spot < |s.table| then s.table[spot := Entry(job.code, job.end, job.method_)] else s.table
    decreases spot - s.threads[t].i
  {
    hide Run;
    var l := s.threads[t];
    more := Extend(s0, moves, Go(t));
    s' := Next(s, Go(t)).value;
    if l.i < spot {
      more, s' := WritesAlone(s0, more, s', t, spot);
    } else if spot < |s.table| {
      more, s' := Stores(s0, more, s', t);
    }
  }

  lemma Stores(s0: State, moves: seq<Move>, s: State, t: nat) returns (more: seq<Move>, s': State)
    requires Run(s0, moves) == Some(s) && t < |s.threads| && (s.threads[t].Claiming? || s.threads[t].Updating?)
    requires s.threads[t].i < |s.table| && s.threads[t].job.code > 0
    requires s.table[s.threads[t].i].start == if s.threads[t].Claiming? then 0 else s.threads[t].job.code
    ensures var job, i := s.threads[t].job, s.threads[t].i;
            && Run(s0, more) == Some(s') && s'.jobs == s.jobs && s'.threads == s.threads[t := Idle]
            && s'.table == s.table[i := Entry(job.code, job.end, job.method_)]
  {
    hide Run;
    more, s' := moves, s;
    if s.threads[t].Claiming? {
      more := Extend(s0, more, Go(t));
      s' := Next(s', Go(t)).value;
      more := Extend(s0, more, Go(t));
      s' := Next(s', Go(t)).value;
    }
    more := Extend(s0, more, Go(t));
    s' := Next(s', Go(t)).value;
    more := Extend(s0, more, Go(t));
    s' := Next(s', Go(t)).value;
  }

  /** A reader that is not disturbed finds the first published range that holds its address, or none. */
  lemma {:induction false} ReadsAlone(s0: State, moves: seq<Move>, s: State, t: nat)
    returns (more: seq<Move>, s': State)
    requires Run(s0, moves) == Some(s) && t < |s.threads| && s.threads[t].Looking? && s.threads[t].i <= |s.table|
    ensures var pc, i := s.threads[t].pc, s.threads[t].i;
            var k := First(s.table[i..], pc);
            && Run(s0, more) == Some(s') && s'.table == s.table && s'.jobs == s.jobs
            && s'.threads == s.threads[t := if i + k == |s.table| then Idle
                                            else var e := s.table[i + k]; Found(e.start, e.end, e.method_)]
    decreases |s.table| - s.threads[t].i
  {
    hide Run;
    var l := s.threads[t];
    more := Extend(s0, moves, Go(t));
    s' := Next(s, Go(t)).value;
    if l.i < |s.table| {
      assert s.table[l.i..][0] == s.table[l.i] && s.table[l.i..][1..] == s.table[l.i + 1..];
      more := Extend(s0, more, Go(t));
      s' := Next(s', Go(t)).value;
      if Covers(s.table[l.i], l.pc) {
        more := Extend(s0, more, Go(t));
        s' := Next(s', Go(t)).value;
      } else {
        more, s' := ReadsAlone(s0, more, s', t);
      }
    }
  }

  lemma RunNone(s: State)
    ensures Run(s, []) == Some(s)
  {
  }

  /** Undisturbed, a registration and a lookup do what the table does when one thread at a time uses it. */
  lemma AloneIsSequential(s: State, t: nat, job: Job, pc: nat, spot: nat)
    returns (moves: seq<Move>, s': State, looks: seq<Move>, s'': State)
    requires t < |s.threads| && s.threads[t] == Idle && job.code > 0 && pc > 0 && FirstSpot(s.table, job.code, spot)
    ensures Run(s, moves) == Some(s') && s'.threads == s.threads && s'.jobs == s.jobs + {job}
    ensures s'.table == if spot < |s.table| then s.table[spot := Entry(job.code, job.end, job.method_)] else s.table
    ensures var k := First(s.table, pc);
            && Run(s, looks) == Some(s'') && s''.table == s.table
            && |s''.threads| == |s.threads| && s''.threads[t := Idle] == s.threads
            && s''.threads[t] == if k == |s.table| then Idle
                                 else var e := s.table[k]; Found(e.start, e.end, e.method_)
  {
    hide Run;
    RunNone(s);
    moves := Extend(s, [], Register(t, job));
    s' := Next(s, Register(t, job)).value;
    moves, s' := WritesAlone(s, moves, s', t, spot);
    looks := Extend(s, [], Lookup(t, pc));
    s'' := Next(s, Lookup(t, pc)).value;
    assert s.table[0..] == s.table;
    looks, s'' := ReadsAlone(s, looks, s'', t);
  }
}
