/** One call of `replace` as packages/secreq/src/atomic.rs makes it, system call by system call,
    and its place among the runs of `Atomic`. */
module AtomicReplace {
  import opened Common
  import opened Atomic

  /** The system calls a call of `replace` makes, for an oracle to fail. */
  datatype Call = AtStart | AtOpen(n: nat) | AtWrite(k: nat) | AtSync | AtChmod | AtRename | AtRemove

  /** What the world does: the staging counter, how much each write takes, and what fails. */
  datatype World = World(counter: nat -> nat, takes: nat -> nat, fails: Call -> bool)

  /** One writer's view of the disk. */
  function Single(names: map<Name, nat>, files: map<nat, File>, job: Job, pc: Pc): State
  {
    State(names, files, [job], [pc])
  }

  /** The staging name of the `n`-th draw. */
  function Sibling(job: Job, world: World, n: nat): Name
  {
    Temp(job.dst, job.pid, world.counter(n))
  }

  /** The names of the first `n` draws are all in use. */
  ghost predicate AllTaken(job: Job, world: World, n: nat, names: map<Name, nat>)
  {
    forall m: nat | m < n :: Sibling(job, world, m) in names
  }

  /** No draw yields a staging file: one fails, every name before it being taken, or all are taken. */
  ghost predicate Unopenable(job: Job, world: World, names: map<Name, nat>)
  {
    exists n: nat | n <= 16 :: AllTaken(job, world, n, names) && (n < 16 ==> world.fails(AtOpen(n)))
  }

  /** How many bytes the write at `k` takes, of `n`: at least one. */
  function Takes(world: World, k: nat, n: nat): (count: nat)
    requires k < n
    ensures 0 < count <= n - k
  {
    var count := world.takes(k);
    if count == 0 then 1 else if count > n - k then n - k else count
  }

  /** The writes from `k` on, up to `n`, all succeed. */
  predicate WritesThrough(world: World, k: nat, n: nat)
    decreases n - k
  {
    k >= n || (!world.fails(AtWrite(k)) && WritesThrough(world, k + Takes(world, k, n), n))
  }

  /** Nothing fails once the staging file is open. */
  predicate Finishes(world: World, n: nat)
  {
    WritesThrough(world, 0, n) && !world.fails(AtSync) && !world.fails(AtChmod) && !world.fails(AtRename)
  }

  /** Every file there was is as it was. */
  ghost predicate FilesKept(before: map<nat, File>, after: map<nat, File>)
  {
    forall ino | ino in before :: ino in after && after[ino] == before[ino]
  }

  class Disk {
    var names: map<Name, nat>
    var files: map<nat, File>
    /** Where the call in progress is, and the steps it has taken. */
    ghost var pc: Pc
    ghost var taken: seq<Event>
    ghost var start: State

    ghost function View(job: Job): State
      reads this
    {
      Single(names, files, job, pc)
    }

    /** The disk is where the steps taken lead. */
    ghost predicate Tracks(job: Job)
      reads this
    {
      View(job) == Run(start, taken)
    }

    constructor (names: map<Name, nat>, files: map<nat, File>)
      ensures this.names == names && this.files == files
    {
      this.names, this.files := names, files;
      pc, taken, start := Starting, [], Single(map[], map[], Job("", [], Exactly({}), 0, {}), Starting);
    }

    ghost method Took(job: Job, was: State, e: Event, next: Pc)
      requires was == Run(start, taken) && Single(names, files, job, next) == Step(was, e)
      modifies this`pc, this`taken
      ensures pc == next && taken == old(taken) + [e] && Tracks(job)
    {
      RunSnoc(start, taken, e);
      pc, taken := next, taken + [e];
    }

    /** A number no file has. */
    method FreshInode() returns (ino: nat)
      ensures ino !in files
    {
      ino := 0;
      ghost var left := files.Keys;
      while ino in files
        invariant forall i | i in files && i !in left :: i < ino
        invariant left <= files.Keys && forall i | i in left :: ino <= i
        decreases |left|
      {
        left := left - {ino};
        ino := ino + 1;
      }
    }

    method ResolveMode(want: Want) returns (mode: Mode)
      ensures mode == Resolved(Single(names, files, Job("", [], want, 0, {}), Starting), want)
    {
      match want {
        case Exactly(m) =>
          mode := m;
        case Like(path) =>
          mode := PRIVATE_FILE_MODE;
          if Plain(path) in names && names[Plain(path)] in files {
            mode := files[names[Plain(path)]].mode * NINE;
          }
      }
    }

    /** `open` with `create_new`, under sixteen names in turn. */
    method CreateStaging(job: Job, mode: Mode, world: World) returns (r: Option<Stage>)
      requires Tracks(job) && pc == Drawing(mode, 0)
      modifies this
      ensures Tracks(job) && start == old(start)
      ensures |taken| <= |old(taken)| + DRAWS
      ensures r.Some? ==> pc == Writing(r.value, 0) && r.value.mode == mode && r.value.tmp.Temp?
      ensures r.Some? ==>
                && names == old(names)[r.value.tmp := r.value.ino] && r.value.ino !in old(files)
                && files == old(files)[r.value.ino := File([], mode - job.umask)]
      ensures r.Some? ==> exists n: nat | n < DRAWS ::
                && r.value.tmp == Sibling(job, world, n) && r.value.tmp !in old(names)
                && AllTaken(job, world, n, old(names))
      ensures r.None? <==> Unopenable(job, world, old(names))
      ensures r.None? ==> pc == Failed(None) && names == old(names) && files == old(files)
    {
      hide Sibling, Tracks;
      var n := 0;
      while n < DRAWS
        invariant n <= DRAWS && Tracks(job) && start == old(start)
        invariant names == old(names) && files == old(files)
        invariant |taken| == |old(taken)| + n && AllTaken(job, world, n, old(names))
        invariant pc == if n < DRAWS then Drawing(mode, n) else Failed(None)
        invariant forall m: nat | m < n :: !world.fails(AtOpen(m))
      {
        r := DrawOnce(job, mode, world, n);
        if r.Some? || world.fails(AtOpen(n)) {
          return;
        }
        n := n + 1;
      }
      return None;
    }

    /** One draw: an error, a name that was free, or one that is taken. */
    method DrawOnce(job: Job, mode: Mode, world: World, n: nat) returns (r: Option<Stage>)
      requires Tracks(job) && pc == Drawing(mode, n) && n < DRAWS
      modifies this
      ensures Tracks(job) && start == old(start) && |taken| == |old(taken)| + 1
      ensures if r.Some? then
                && !world.fails(AtOpen(n)) && r.value.tmp == Sibling(job, world, n) && r.value.tmp !in old(names)
                && r.value.mode == mode && r.value.tmp.Temp? && pc == Writing(r.value, 0)
                && names == old(names)[r.value.tmp := r.value.ino] && r.value.ino !in old(files)
                && files == old(files)[r.value.ino := File([], mode - job.umask)]
              else
                && names == old(names) && files == old(files)
                && (world.fails(AtOpen(n)) || Sibling(job, world, n) in names)
                && pc == if world.fails(AtOpen(n)) || n + 1 >= DRAWS then Failed(None) else Drawing(mode, n + 1)
    {
      hide Run;
      ghost var was := View(job);
      if world.fails(AtOpen(n)) {
        Took(job, was, Fail(0), Failed(None));
        return None;
      }
      var ino := FreshInode();
      var tmp := Sibling(job, world, n);
      if tmp !in names {
        names := names[tmp := ino];
        files := files[ino := File([], mode - job.umask)];
        Took(job, was, Draw(0, world.counter(n), ino), Writing(Stage(mode, tmp, ino), 0));
        return Some(Stage(mode, tmp, ino));
      }
      Took(job, was, Draw(0, world.counter(n), ino), if n + 1 >= DRAWS then Failed(None) else Drawing(mode, n + 1));
      return None;
    }

    /** One `write`, of `count` bytes. */
    method WriteSome(job: Job, st: Stage, k: nat, count: nat)
      requires Tracks(job) && pc == Writing(st, k) && st.ino in files && 0 < count && k + count <= |job.payload|
      modifies this`files, this`pc, this`taken
      ensures Tracks(job) && pc == Writing(st, k + count)
      ensures st.ino in files && files == old(files)[st.ino := files[st.ino]]
    {
      hide Run;
      ghost var was := View(job);
      var file := files[st.ino];
      files := files[st.ino := file.(data := file.data + job.payload[k..k + count])];
      Took(job, was, Event.Write(0, count), Writing(st, k + count));
    }

    /** The call in progress fails, with a staging file to sweep. */
    ghost method FailsStaged(job: Job, st: Stage)
      requires Tracks(job) && (pc.Writing? || pc.Chmodding? || pc.Renaming?) && pc.st == st
      modifies this`pc, this`taken
      ensures Tracks(job) && pc == Removing(st)
    {
      hide Run;
      Took(job, View(job), Fail(0), Removing(st));
    }

    method WriteAll(job: Job, st: Stage, world: World) returns (ok: bool)
      requires Tracks(job) && pc == Writing(st, 0) && st.ino in files
      modifies this`files, this`pc, this`taken
      ensures Tracks(job) && ok == WritesThrough(world, 0, |job.payload|)
      ensures ok ==> pc == Writing(st, |job.payload|)
      ensures !ok ==> pc == Removing(st)
      ensures st.ino in files && files == old(files)[st.ino := files[st.ino]]
    {
      hide Tracks;
      var k := 0;
      while k < |job.payload|
        invariant k <= |job.payload| && Tracks(job) && pc == Writing(st, k)
        invariant st.ino in files && files == old(files)[st.ino := files[st.ino]]
        invariant WritesThrough(world, k, |job.payload|) == WritesThrough(world, 0, |job.payload|)
      {
        if world.fails(AtWrite(k)) {
          FailsStaged(job, st);
          return false;
        }
        var count := Takes(world, k, |job.payload|);
        WriteSome(job, st, k, count);
        k := k + count;
      }
      return true;
    }

    method SyncAll(job: Job, st: Stage, world: World) returns (ok: bool)
      requires Tracks(job) && pc == Writing(st, |job.payload|)
      modifies this`pc, this`taken
      ensures Tracks(job) && pc == if ok then Chmodding(st) else Removing(st)
      ensures ok == !world.fails(AtSync)
    {
      ok := !world.fails(AtSync);
      Took(job, View(job), if ok then Sync(0) else Fail(0), if ok then Chmodding(st) else Removing(st));
    }

    method SetPermissions(job: Job, st: Stage, world: World) returns (ok: bool)
      requires Tracks(job) && pc == Chmodding(st)
      requires st.tmp in names && names[st.tmp] == st.ino && st.ino in files
      modifies this`files, this`pc, this`taken
      ensures Tracks(job) && pc == if ok then Renaming(st) else Removing(st)
      ensures ok == !world.fails(AtChmod)
      ensures st.ino in files && files == old(files)[st.ino := files[st.ino]]
    {
      ghost var was := View(job);
      ok := !world.fails(AtChmod);
      if ok {
        files := files[st.ino := files[st.ino].(mode := st.mode)];
      }
      Took(job, was, if ok then Chmod(0) else Fail(0), if ok then Renaming(st) else Removing(st));
    }

    method RenameOver(job: Job, st: Stage, world: World) returns (ok: bool)
      requires Tracks(job) && pc == Renaming(st)
      requires st.tmp in names && names[st.tmp] == st.ino && st.tmp.Temp?
      modifies this`names, this`pc, this`taken
      ensures Tracks(job) && pc == if ok then Done(st) else Removing(st)
      ensures ok == !world.fails(AtRename)
      ensures names == if ok then old(names)[Plain(job.dst) := st.ino] - {st.tmp} else old(names)
    {
      ghost var was := View(job);
      ok := !world.fails(AtRename);
      if ok {
        names := names[Plain(job.dst) := st.ino] - {st.tmp};
      }
      Took(job, was, if ok then Event.Rename(0) else Fail(0), if ok then Done(st) else Removing(st));
    }

    method Finish(job: Job, st: Stage, world: World) returns (ok: bool)
      requires Tracks(job) && pc == Writing(st, 0)
      requires st.tmp in names && names[st.tmp] == st.ino && st.tmp.Temp? && st.ino in files
      modifies this
      ensures Tracks(job) && start == old(start)
      ensures pc == if ok then Done(st) else Removing(st)
      ensures ok == Finishes(world, |job.payload|)
      ensures names == if ok then old(names)[Plain(job.dst) := st.ino] - {st.tmp} else old(names)
      ensures st.ino in files && files == old(files)[st.ino := files[st.ino]]
    {
      hide Tracks;
      ok := WriteAll(job, st, world);
      if ok {
        ok := SyncAll(job, st, world);
      }
      if ok {
        ok := SetPermissions(job, st, world);
      }
      if ok {
        ok := RenameOver(job, st, world);
      }
    }

    method Sweep(job: Job, st: Stage, world: World)
      requires Tracks(job) && pc == Removing(st)
      modifies this`names, this`pc, this`taken
      ensures Tracks(job) && pc.Failed?
      ensures names == if world.fails(AtRemove) then old(names) else old(names) - {st.tmp}
    {
      ghost var was := View(job);
      var swept := !world.fails(AtRemove);
      if swept {
        names := names - {st.tmp};
      }
      Took(job, was, Remove(0, swept), Failed(if swept then None else Some(st.tmp)));
    }

    /** The mode, before any file is touched. */
    method Begin(job: Job, world: World) returns (mode: Option<Mode>)
      modifies this`start, this`taken, this`pc
      ensures start == Single(names, files, job, Starting) && Tracks(job) && |taken| == 1
      ensures pc == if mode.Some? then Drawing(mode.value, 0) else Failed(None)
      ensures if world.fails(AtStart) then mode.None? else mode == Some(Resolved(start, job.want))
    {
      start, taken, pc := Single(names, files, job, Starting), [], Starting;
      ghost var was := View(job);
      if world.fails(AtStart) {
        Took(job, was, Fail(0), Failed(None));
        return None;
      }
      var resolved := ResolveMode(job.want);
      Took(job, was, Resolve(0), Drawing(resolved, 0));
      return Some(resolved);
    }

    /** One call is one run of the protocol. It succeeds if and only if no call it makes to the system
        fails and some staging name is free; then the path names the payload, at the mode asked
        for, and nothing else has changed. Else no path has changed, and nothing is left beside it
        unless the sweep failed too. */
    method Replace(job: Job, world: World) returns (ok: bool)
      requires forall name | name in names :: names[name] in files
      modifies this
      ensures start == old(Single(names, files, job, Starting)) && Tracks(job)
      ensures if ok then pc.Done? else pc.Failed?
      ensures ok <==> !world.fails(AtStart) && !Unopenable(job, world, old(names)) && Finishes(world, |job.payload|)
      ensures FilesKept(old(files), files)
      ensures ok ==> Plain(job.dst) in names && names == old(names)[Plain(job.dst) := names[Plain(job.dst)]]
      ensures !ok && !world.fails(AtRemove) ==> names == old(names)
      ensures ok ==>
                && Plain(job.dst) in names && names[Plain(job.dst)] in files
                && files[names[Plain(job.dst)]]
                   == File(job.payload, Resolved(old(Single(names, files, job, Starting)), job.want))
      ensures !ok ==> forall path: string :: Plain(path) in names <==> Plain(path) in old(names)
      ensures !ok ==> forall path: string | Plain(path) in names ::
                        && names[Plain(path)] == old(names)[Plain(path)] && names[Plain(path)] in files
                        && files[names[Plain(path)]] == old(files)[names[Plain(path)]]
    {
      hide Step, Run, Inv, Resolved, Unopenable, Finishes;
      var mode := Begin(job, world);
      if mode.None? {
        return false;
      }
      var st := CreateStaging(job, mode.value, world);
      if st.None? {
        return false;
      }
      StagedAway(old(names), st.value.tmp, st.value.ino, job.dst);
      ok := Finish(job, st.value, world);
      if !ok {
        Sweep(job, st.value, world);
        KeepsAll(start, taken);
      } else {
        PublishedWhole(start, taken);
      }
    }
  }

  lemma {:induction false} StagedAway(names: map<Name, nat>, tmp: Name, ino: nat, dst: string)
    requires tmp !in names && tmp.Temp?
    ensures names[tmp := ino] - {tmp} == names
    ensures names[tmp := ino][Plain(dst) := ino] - {tmp} == names[Plain(dst) := ino]
  {
  }

  /** A call that succeeds has published. */
  lemma {:induction false} PublishedWhole(init: State, es: seq<Event>)
    requires Initial(init) && |init.jobs| == 1 && |Run(init, es).pcs| == 1 && Run(init, es).pcs[0].Done?
    ensures var s := Run(init, es);
            |s.jobs| == 1 && DoneOk(init, s, 0)
  {
    hide Run;
    InitialIsInOrder(init);
    RunKeeps(init, init, es);
  }

  /** A call that fails leaves every path as it was. */
  lemma {:induction false} KeepsAll(init: State, es: seq<Event>)
    requires Initial(init) && |init.jobs| == 1 && |Run(init, es).pcs| == 1 && Run(init, es).pcs[0].Failed?
    ensures var s := Run(init, es);
            && (forall path: string :: Plain(path) in s.names <==> Plain(path) in init.names)
            && forall path: string | Plain(path) in s.names ::
                 s.names[Plain(path)] == init.names[Plain(path)] && s.names[Plain(path)] in s.files
                 && s.files[s.names[Plain(path)]] == init.files[s.names[Plain(path)]]
  {
    hide Run;
    InitialIsInOrder(init);
    RunKeeps(init, init, es);
    var s := Run(init, es);
    forall path: string | Plain(path) in s.names
      ensures Plain(path) in init.names && s.names[Plain(path)] == init.names[Plain(path)]
    {
      assert Published(init, s, path);
    }
  }
}
