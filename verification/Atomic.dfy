/** Replacing a file: packages/secreq/src/atomic.rs as the steps any number of writers take over
    one file system, each step one system call, any of which may fail and at any of which a
    process may die. */
module Atomic {
  import opened Common

  // ---------------------------------------------------------------------
  // The file system
  // ---------------------------------------------------------------------

  /** A path its users know, or the staging sibling `.<name>.<pid>.<seq>.tmp` of one. */
  datatype Name = Plain(path: string) | Temp(path: string, pid: nat, seqNo: nat)

  /** Permission bits, by position. */
  type Mode = set<nat>

  /** 0o777. */
  const NINE: Mode := {0, 1, 2, 3, 4, 5, 6, 7, 8}

  /** 0o600. */
  const PRIVATE_FILE_MODE: Mode := {7, 8}

  /** The number that octal digits spell. */
  function Octal(digits: string): nat
    requires forall k | 0 <= k < |digits| :: '0' <= digits[k] <= '7'
  {
    if digits == "" then 0
    else 8 * Octal(digits[..|digits| - 1]) + (digits[|digits| - 1] as nat - '0' as nat)
  }

  function Weight(mode: Mode, bit: nat, weight: nat): nat
  {
    if bit in mode then weight else 0
  }

  /** The number whose nine low bits these are. */
  function Numeral(mode: Mode): nat
  {
    Weight(mode, 0, 1) + Weight(mode, 1, 2) + Weight(mode, 2, 4) + Weight(mode, 3, 8) + Weight(mode, 4, 16)
    + Weight(mode, 5, 32) + Weight(mode, 6, 64) + Weight(mode, 7, 128) + Weight(mode, 8, 256)
  }

  /** The two modes are the ones their octal digits spell, and no others are. */
  lemma {:induction false} ModesAreSpelled(mode: Mode)
    requires mode <= NINE
    ensures mode == PRIVATE_FILE_MODE <==> Numeral(mode) == Octal("600")
    ensures mode == NINE <==> Numeral(mode) == Octal("777")
  {
    OctalsRead();
    hide Octal;
  }

  lemma {:induction false} OctalsRead()
    ensures Octal("600") == 384 && Octal("777") == 511
  {
    assert Octal("6") == 6 && Octal("60") == 48;
    assert Octal("7") == 7 && Octal("77") == 63;
  }

  const DRAWS: nat := 16

  datatype File = File(data: Bytes, mode: Mode)

  datatype Want = Like(path: string) | Exactly(mode: Mode)

  /** One call of `replace`, and the process that makes it. */
  datatype Job = Job(dst: string, payload: Bytes, want: Want, pid: nat, umask: Mode)

  /** The mode resolved, and the staging file created. */
  datatype Stage = Stage(mode: Mode, tmp: Name, ino: nat)

  /** What a writer does next. */
  datatype Pc =
    | Starting
    | Drawing(mode: Mode, tries: nat)
    | Writing(st: Stage, k: nat)
    | Chmodding(st: Stage)
    | Renaming(st: Stage)
    | Removing(st: Stage)
    | Done(st: Stage)
    /** With the staging file it could not sweep, if any. */
    | Failed(litter: Option<Name>)
    | Dead(at: Pc)

  datatype State = State(names: map<Name, nat>, files: map<nat, File>, jobs: seq<Job>, pcs: seq<Pc>) {
    function To(w: nat, pc: Pc): State
      requires w < |pcs|
    {
      this.(pcs := pcs[w := pc])
    }
  }

  /** `Mode::resolve`. */
  function Resolved(s: State, want: Want): Mode
  {
    match want
    case Exactly(mode) => mode
    case Like(path) =>
      if Plain(path) in s.names && s.names[Plain(path)] in s.files
      then s.files[s.names[Plain(path)]].mode * NINE else PRIVATE_FILE_MODE
  }

  // ---------------------------------------------------------------------
  // Steps
  // ---------------------------------------------------------------------

  datatype Event =
    | Resolve(w: nat)
    /** `create_new` at the name the counter gives; `ino` is the file it makes if none is there. */
    | Draw(w: nat, seqNo: nat, ino: nat)
    /** One `write`, of as many bytes as the kernel took. */
    | Write(w: nat, count: nat)
    | Sync(w: nat)
    | Chmod(w: nat)
    | Rename(w: nat)
    /** The system call the writer is at returns an error. */
    | Fail(w: nat)
    /** Sweeping the staging file after a failure; that may fail too. */
    | Remove(w: nat, ok: bool)
    | Die(w: nat)

  predicate Enabled(s: State, e: Event)
  {
    && e.w < |s.pcs| && |s.pcs| == |s.jobs|
    && var pc := s.pcs[e.w];
       match e
       case Resolve(_) => pc.Starting?
       case Draw(_, _, ino) => pc.Drawing? && ino !in s.files
       case Write(w, count) => pc.Writing? && 0 < count && pc.k + count <= |s.jobs[w].payload| && pc.st.ino in s.files
       case Sync(w) => pc.Writing? && pc.k == |s.jobs[w].payload|
       case Chmod(_) => pc.Chmodding? && pc.st.tmp in s.names && s.names[pc.st.tmp] in s.files
       case Rename(_) => pc.Renaming? && pc.st.tmp in s.names
       case Fail(_) => pc.Starting? || pc.Drawing? || pc.Writing? || pc.Chmodding? || pc.Renaming?
       case Remove(_, _) => pc.Removing?
       case Die(_) => !pc.Done? && !pc.Failed? && !pc.Dead?
  }

  function OnDraw(s: State, w: nat, seqNo: nat, ino: nat): State
    requires Enabled(s, Draw(w, seqNo, ino))
  {
    var job, pc := s.jobs[w], s.pcs[w];
    var tmp := Temp(job.dst, job.pid, seqNo);
    if tmp in s.names then s.To(w, if pc.tries + 1 >= DRAWS then Failed(None) else Drawing(pc.mode, pc.tries + 1))
    else
      s.(names := s.names[tmp := ino], files := s.files[ino := File([], pc.mode - job.umask)])
       .To(w, Writing(Stage(pc.mode, tmp, ino), 0))
  }

  function OnWrite(s: State, w: nat, count: nat): State
    requires Enabled(s, Write(w, count))
  {
    var pc := s.pcs[w];
    var file := s.files[pc.st.ino];
    s.(files := s.files[pc.st.ino := file.(data := file.data + s.jobs[w].payload[pc.k..pc.k + count])])
     .To(w, Writing(pc.st, pc.k + count))
  }

  /** By name, as `set_permissions` does it. */
  function OnChmod(s: State, w: nat): State
    requires Enabled(s, Chmod(w))
  {
    var st := s.pcs[w].st;
    var ino := s.names[st.tmp];
    s.(files := s.files[ino := s.files[ino].(mode := st.mode)]).To(w, Renaming(st))
  }

  function OnRename(s: State, w: nat): State
    requires Enabled(s, Rename(w))
  {
    var st := s.pcs[w].st;
    s.(names := s.names[Plain(s.jobs[w].dst) := s.names[st.tmp]] - {st.tmp}).To(w, Done(st))
  }

  function Step(s: State, e: Event): State
  {
    if !Enabled(s, e) then s
    else
      var pc := s.pcs[e.w];
      match e
      case Resolve(w) => s.To(w, Drawing(Resolved(s, s.jobs[w].want), 0))
      case Draw(w, seqNo, ino) => OnDraw(s, w, seqNo, ino)
      case Write(w, count) => OnWrite(s, w, count)
      case Sync(w) => s.To(w, Chmodding(pc.st))
      case Chmod(w) => OnChmod(s, w)
      case Rename(w) => OnRename(s, w)
      case Fail(w) => s.To(w, if pc.Starting? || pc.Drawing? then Failed(None) else Removing(pc.st))
      case Remove(w, ok) =>
        if ok then s.(names := s.names - {pc.st.tmp}).To(w, Failed(None)) else s.To(w, Failed(Some(pc.st.tmp)))
      case Die(w) => s.To(w, Dead(pc))
  }

  function Run(s: State, es: seq<Event>): State
    decreases |es|
  {
    if es == [] then s else Run(Step(s, es[0]), es[1..])
  }

  /** Any files at all, and writers that have not started. */
  ghost predicate Initial(s: State)
  {
    && |s.pcs| == |s.jobs| && (forall w | 0 <= w < |s.pcs| :: s.pcs[w] == Starting)
    && forall name | name in s.names :: s.names[name] in s.files
  }

  // ---------------------------------------------------------------------
  // The invariant
  // ---------------------------------------------------------------------

  /** Where a writer, dead or alive, was last. */
  function Last(pc: Pc): Pc
  {
    if pc.Dead? then Last(pc.at) else pc
  }

  /** The writer has a staging file of its own. */
  predicate Staged(pc: Pc)
  {
    var at := Last(pc);
    at.Writing? || at.Chmodding? || at.Renaming? || at.Removing?
  }

  /** One writer's staging file: named, its own, and what has been written of the payload, under
      no bits but those asked for. */
  ghost predicate StageOk(init: State, s: State, w: nat)
    requires w < |s.pcs| && |s.pcs| == |s.jobs| && Staged(s.pcs[w])
  {
    var at, job := Last(s.pcs[w]), s.jobs[w];
    var st := at.st;
    && st.tmp.Temp? && st.tmp.path == job.dst
    && st.tmp in s.names && s.names[st.tmp] == st.ino && st.ino in s.files && st.ino !in init.files
    && var file := s.files[st.ino];
       && file.data <= job.payload && file.mode <= st.mode
       && (at.Writing? ==> at.k <= |job.payload| && file.data == job.payload[..at.k])
       && (at.Chmodding? || at.Renaming? ==> file.data == job.payload)
       && (at.Renaming? ==> file.mode == st.mode)
  }

  /** No other name leads to a writer's staging file, and no other writer has it. */
  ghost predicate Alone(s: State, w: nat)
    requires w < |s.pcs| && Staged(s.pcs[w])
  {
    var st := Last(s.pcs[w]).st;
    && (forall name | name in s.names && s.names[name] == st.ino :: name == st.tmp)
    && forall v | 0 <= v < |s.pcs| && v != w && Staged(s.pcs[v]) ::
         Last(s.pcs[v]).st.tmp != st.tmp && Last(s.pcs[v]).st.ino != st.ino
  }

  /** What a writer published is still there, whole and at the mode it asked for. */
  ghost predicate DoneOk(init: State, s: State, w: nat)
    requires w < |s.pcs| && |s.pcs| == |s.jobs| && s.pcs[w].Done?
  {
    var st := s.pcs[w].st;
    && st.ino in s.files && s.files[st.ino] == File(s.jobs[w].payload, st.mode)
    && forall v | 0 <= v < |s.pcs| && Staged(s.pcs[v]) :: Last(s.pcs[v]).st.ino != st.ino
  }

  /** A path names what it did to begin with, or what one writer published there. */
  ghost predicate Published(init: State, s: State, path: string)
    requires Plain(path) in s.names && |s.pcs| == |s.jobs|
  {
    || (Plain(path) in init.names && s.names[Plain(path)] == init.names[Plain(path)])
    || exists w | 0 <= w < |s.pcs| ::
         s.pcs[w].Done? && s.jobs[w].dst == path && s.pcs[w].st.ino == s.names[Plain(path)]
  }

  ghost predicate Inv(init: State, s: State)
  {
    && s.jobs == init.jobs && |s.pcs| == |s.jobs|
    && (forall name | name in s.names :: s.names[name] in s.files)
    && (forall i | i in init.files :: i in s.files && s.files[i] == init.files[i])
    && (forall w | 0 <= w < |s.pcs| && Staged(s.pcs[w]) :: StageOk(init, s, w) && Alone(s, w))
    && (forall w | 0 <= w < |s.pcs| && s.pcs[w].Done? :: DoneOk(init, s, w))
    && (forall path | Plain(path) in s.names :: Published(init, s, path))
    && (forall name | name in init.names && name.Plain? :: name in s.names)
  }

  lemma {:induction false} ToKeeps(init: State, s: State, w: nat, pc: Pc)
    requires Inv(init, s) && w < |s.pcs| && !s.pcs[w].Done? && !pc.Done?
    requires Staged(pc) ==> Staged(s.pcs[w]) && Last(pc).st == Last(s.pcs[w]).st && StageOk(init, s.To(w, pc), w)
    ensures Inv(init, s.To(w, pc))
  {
    hide Last;
    var t := s.To(w, pc);
    forall v | 0 <= v < |t.pcs| && Staged(t.pcs[v])
      ensures StageOk(init, t, v) && Alone(t, v)
    {
      assert StageOk(init, s, v) && Alone(s, v);
      if v != w {
        SameStage(init, s, t, v);
      }
    }
    forall v | 0 <= v < |t.pcs| && t.pcs[v].Done?
      ensures DoneOk(init, t, v)
    {
      assert DoneOk(init, s, v);
    }
    forall path | Plain(path) in t.names
      ensures Published(init, t, path)
    {
      assert Published(init, s, path);
      KeepsPublishing(init, s, t, path);
    }
  }

  /** Nothing a writer's stage depends on changed. */
  lemma {:induction false} SameStage(init: State, s: State, t: State, v: nat)
    requires |s.pcs| == |s.jobs| == |t.pcs| == |t.jobs| && s.jobs == t.jobs && v < |s.pcs|
    requires t.pcs[v] == s.pcs[v] && Staged(s.pcs[v]) && StageOk(init, s, v)
    requires var st := Last(s.pcs[v]).st;
             && st.tmp in t.names && t.names[st.tmp] == st.ino
             && st.ino in t.files && t.files[st.ino] == s.files[st.ino]
    ensures StageOk(init, t, v)
  {
  }

  lemma {:induction false} KeepsPublishing(init: State, s: State, t: State, path: string)
    requires Plain(path) in s.names && Plain(path) in t.names && t.names[Plain(path)] == s.names[Plain(path)]
    requires |s.pcs| == |s.jobs| == |t.pcs| == |t.jobs| && s.jobs == t.jobs
    requires forall v | 0 <= v < |s.pcs| && s.pcs[v].Done? :: t.pcs[v] == s.pcs[v]
    requires Published(init, s, path)
    ensures Published(init, t, path)
  {
  }

  lemma {:induction false} DrawKeeps(init: State, s: State, w: nat, seqNo: nat, ino: nat)
    requires Inv(init, s) && Enabled(s, Draw(w, seqNo, ino))
    requires Temp(s.jobs[w].dst, s.jobs[w].pid, seqNo) !in s.names
    ensures Inv(init, OnDraw(s, w, seqNo, ino))
  {
    var t := OnDraw(s, w, seqNo, ino);
    forall v | 0 <= v < |t.pcs| && Staged(t.pcs[v])
      ensures StageOk(init, t, v) && Alone(t, v)
    {
      if v != w {
        assert StageOk(init, s, v) && Alone(s, v);
        SameStage(init, s, t, v);
      } else {
        assert forall u | 0 <= u < |s.pcs| && Staged(s.pcs[u]) :: StageOk(init, s, u);
      }
    }
    forall v | 0 <= v < |t.pcs| && t.pcs[v].Done?
      ensures DoneOk(init, t, v)
    {
      assert DoneOk(init, s, v);
    }
    forall path | Plain(path) in t.names
      ensures Published(init, t, path)
    {
      assert Published(init, s, path);
      KeepsPublishing(init, s, t, path);
    }
  }

  /** A writer changes its own staging file. */
  lemma {:induction false} OwnFileKeeps(init: State, s: State, w: nat, file: File, pc: Pc)
    requires Inv(init, s) && w < |s.pcs| && Staged(s.pcs[w]) && Staged(pc) && !pc.Dead?
    requires !s.pcs[w].Dead? && Last(pc).st == Last(s.pcs[w]).st
    requires StageOk(init, s.(files := s.files[Last(pc).st.ino := file]).To(w, pc), w)
    ensures Inv(init, s.(files := s.files[Last(pc).st.ino := file]).To(w, pc))
  {
    var st := Last(pc).st;
    var t := s.(files := s.files[st.ino := file]).To(w, pc);
    assert StageOk(init, s, w) && Alone(s, w);
    forall v | 0 <= v < |t.pcs| && Staged(t.pcs[v])
      ensures StageOk(init, t, v) && Alone(t, v)
    {
      assert StageOk(init, s, v) && Alone(s, v);
      if v != w {
        SameStage(init, s, t, v);
      }
    }
    forall v | 0 <= v < |t.pcs| && t.pcs[v].Done?
      ensures DoneOk(init, t, v)
    {
      assert DoneOk(init, s, v);
    }
    forall path | Plain(path) in t.names
      ensures Published(init, t, path)
    {
      assert Published(init, s, path);
      KeepsPublishing(init, s, t, path);
    }
  }

  lemma {:induction false} RenameKeeps(init: State, s: State, w: nat)
    requires Inv(init, s) && Enabled(s, Rename(w))
    ensures Inv(init, OnRename(s, w))
  {
    var t := OnRename(s, w);
    assert StageOk(init, s, w) && Alone(s, w);
    forall v | 0 <= v < |t.pcs| && Staged(t.pcs[v])
      ensures StageOk(init, t, v) && Alone(t, v)
    {
      assert StageOk(init, s, v) && Alone(s, v);
      SameStage(init, s, t, v);
    }
    forall v | 0 <= v < |t.pcs| && t.pcs[v].Done?
      ensures DoneOk(init, t, v)
    {
      assert v != w ==> DoneOk(init, s, v);
    }
    forall path | Plain(path) in t.names
      ensures Published(init, t, path)
    {
      if path == s.jobs[w].dst {
        assert t.pcs[w].Done?;
      } else {
        assert Published(init, s, path);
        KeepsPublishing(init, s, t, path);
      }
    }
  }

  lemma {:induction false} RemoveKeeps(init: State, s: State, w: nat)
    requires Inv(init, s) && Enabled(s, Remove(w, true))
    ensures Inv(init, Step(s, Remove(w, true)))
  {
    var t := Step(s, Remove(w, true));
    assert StageOk(init, s, w) && Alone(s, w);
    forall v | 0 <= v < |t.pcs| && Staged(t.pcs[v])
      ensures StageOk(init, t, v) && Alone(t, v)
    {
      assert StageOk(init, s, v) && Alone(s, v);
      SameStage(init, s, t, v);
    }
    forall v | 0 <= v < |t.pcs| && t.pcs[v].Done?
      ensures DoneOk(init, t, v)
    {
      assert DoneOk(init, s, v);
    }
    forall path | Plain(path) in t.names
      ensures Published(init, t, path)
    {
      assert Published(init, s, path);
      KeepsPublishing(init, s, t, path);
    }
  }

  lemma {:induction false} StepKeeps(init: State, s: State, e: Event)
    requires Inv(init, s)
    ensures Inv(init, Step(s, e))
  {
    if Enabled(s, e) {
      var w, pc := e.w, s.pcs[e.w];
      assert Staged(pc) ==> StageOk(init, s, w);
      match e {
        case Resolve(_) => ToKeeps(init, s, w, Drawing(Resolved(s, s.jobs[w].want), 0));
        case Draw(_, seqNo, ino) =>
          if Temp(s.jobs[w].dst, s.jobs[w].pid, seqNo) in s.names {
            ToKeeps(init, s, w, OnDraw(s, w, seqNo, ino).pcs[w]);
          } else {
            DrawKeeps(init, s, w, seqNo, ino);
          }
        case Write(_, count) => WriteKeeps(init, s, w, count);
        case Sync(_) => SyncKeeps(init, s, w);
        case Chmod(_) => ChmodKeeps(init, s, w);
        case Rename(_) => RenameKeeps(init, s, w);
        case Fail(_) => FailKeeps(init, s, w);
        case Remove(_, ok) =>
          if ok {
            RemoveKeeps(init, s, w);
          } else {
            ToKeeps(init, s, w, Failed(Some(pc.st.tmp)));
          }
        case Die(_) => DieKeeps(init, s, w);
      }
    }
  }

  lemma {:induction false} StageAfterWrite(init: State, s: State, w: nat, count: nat)
    requires Enabled(s, Write(w, count)) && StageOk(init, s, w)
    ensures StageOk(init, OnWrite(s, w, count), w)
  {
    var pc, payload := s.pcs[w], s.jobs[w].payload;
    assert payload[..pc.k] + payload[pc.k..pc.k + count] == payload[..pc.k + count];
  }

  lemma {:induction false} WriteKeeps(init: State, s: State, w: nat, count: nat)
    requires Inv(init, s) && Enabled(s, Write(w, count))
    ensures Inv(init, OnWrite(s, w, count))
  {
    var pc, payload := s.pcs[w], s.jobs[w].payload;
    var file := s.files[pc.st.ino];
    var next, after := Writing(pc.st, pc.k + count), file.(data := file.data + payload[pc.k..pc.k + count]);
    assert StageOk(init, s, w);
    StageAfterWrite(init, s, w, count);
    assert Staged(pc) && Staged(next) && Last(pc) == pc && Last(next) == next;
    assert OnWrite(s, w, count) == s.(files := s.files[pc.st.ino := after]).To(w, next);
    hide *;
    OwnFileKeeps(init, s, w, after, next);
  }

  lemma {:induction false} SyncKeeps(init: State, s: State, w: nat)
    requires Inv(init, s) && Enabled(s, Sync(w))
    ensures Inv(init, Step(s, Sync(w)))
  {
    assert StageOk(init, s, w);
    assert s.jobs[w].payload[..|s.jobs[w].payload|] == s.jobs[w].payload;
    ToKeeps(init, s, w, Chmodding(s.pcs[w].st));
  }

  lemma {:induction false} ChmodKeeps(init: State, s: State, w: nat)
    requires Inv(init, s) && Enabled(s, Chmod(w))
    ensures Inv(init, OnChmod(s, w))
  {
    var st := s.pcs[w].st;
    assert StageOk(init, s, w);
    OwnFileKeeps(init, s, w, s.files[st.ino].(mode := st.mode), Renaming(st));
  }

  lemma {:induction false} FailKeeps(init: State, s: State, w: nat)
    requires Inv(init, s) && Enabled(s, Fail(w))
    ensures Inv(init, Step(s, Fail(w)))
  {
    var pc := s.pcs[w];
    if pc.Starting? || pc.Drawing? {
      ToKeeps(init, s, w, Failed(None));
    } else {
      assert StageOk(init, s, w);
      ToKeeps(init, s, w, Removing(pc.st));
    }
  }

  lemma {:induction false} DieKeeps(init: State, s: State, w: nat)
    requires Inv(init, s) && Enabled(s, Die(w))
    ensures Inv(init, Step(s, Die(w)))
  {
    var pc := s.pcs[w];
    assert Last(Dead(pc)) == Last(pc);
    assert Staged(pc) ==> StageOk(init, s, w);
    ToKeeps(init, s, w, Dead(pc));
  }

  lemma {:induction false} RunKeeps(init: State, s: State, es: seq<Event>)
    requires Inv(init, s)
    ensures Inv(init, Run(s, es))
    decreases |es|
  {
    hide Inv, Step;
    if es != [] {
      StepKeeps(init, s, es[0]);
      RunKeeps(init, Step(s, es[0]), es[1..]);
    }
  }

  lemma {:induction false} InitialIsInOrder(init: State)
    requires Initial(init)
    ensures Inv(init, init)
  {
    forall path | Plain(path) in init.names
      ensures Published(init, init, path)
    {
    }
  }

  // ---------------------------------------------------------------------
  // Atomic publication
  // ---------------------------------------------------------------------

  /** The mode a writer has resolved, if it has. */
  function Asked(pc: Pc): Option<Mode>
  {
    match Last(pc)
    case Drawing(mode, _) => Some(mode)
    case Writing(st, _) => Some(st.mode)
    case Chmodding(st) => Some(st.mode)
    case Renaming(st) => Some(st.mode)
    case Removing(st) => Some(st.mode)
    case Done(st) => Some(st.mode)
    case _ => None
  }

  /** What a writer resolved is what its caller asked for. */
  ghost predicate AsksOk(s: State, w: nat)
    requires w < |s.pcs| && |s.pcs| == |s.jobs|
  {
    Asked(s.pcs[w]).Some? ==>
      match s.jobs[w].want
      case Exactly(mode) => Asked(s.pcs[w]).value == mode
      case Like(_) => Asked(s.pcs[w]).value <= NINE
  }

  ghost predicate AllAsk(s: State)
  {
    |s.pcs| == |s.jobs| && forall w | 0 <= w < |s.pcs| :: AsksOk(s, w)
  }

  /** A step moves one writer, which goes on asking for what it asked. */
  lemma {:induction false} StepAsks(s: State, e: Event)
    requires AllAsk(s)
    ensures var t := Step(s, e);
            && |t.pcs| == |s.pcs| && t.jobs == s.jobs
            && (forall v | 0 <= v < |s.pcs| && v != e.w :: t.pcs[v] == s.pcs[v])
            && (Enabled(s, e) && !e.Resolve? && Asked(t.pcs[e.w]).Some? ==> Asked(t.pcs[e.w]) == Asked(s.pcs[e.w]))
            && AllAsk(t)
  {
    var t := Step(s, e);
    if Enabled(s, e) {
      assert Last(Dead(s.pcs[e.w])) == Last(s.pcs[e.w]);
      assert AsksOk(s, e.w);
      forall v | 0 <= v < |t.pcs|
        ensures AsksOk(t, v)
      {
        assert AsksOk(s, v);
      }
    }
  }

  lemma {:induction false} RunAsks(s: State, es: seq<Event>)
    requires AllAsk(s)
    ensures AllAsk(Run(s, es))
    decreases |es|
  {
    hide AllAsk, Step;
    if es != [] {
      StepAsks(s, es[0]);
      RunAsks(Step(s, es[0]), es[1..]);
    }
  }

  lemma {:induction false} RunSnoc(s: State, es: seq<Event>, e: Event)
    ensures Run(s, es + [e]) == Step(Run(s, es), e)
    decreases |es|
  {
    if es == [] {
      assert [] + [e] == [e] && [e][1..] == [];
      assert Run(Step(s, e), []) == Step(s, e);
    } else {
      assert (es + [e])[1..] == es[1..] + [e];
      RunSnoc(Step(s, es[0]), es[1..], e);
    }
  }

  /** Writer `w` resolved `mode` at some step of the run, from the files as they were then. */
  ghost predicate WasResolved(init: State, es: seq<Event>, w: nat, mode: Mode)
    requires w < |init.jobs|
  {
    exists n | 0 <= n < |es| ::
      && es[n] == Resolve(w) && Enabled(Run(init, es[..n]), es[n])
      && mode == Resolved(Run(init, es[..n]), init.jobs[w].want)
  }

  lemma {:induction false} AskedWasResolved(init: State, es: seq<Event>, w: nat)
    requires Initial(init) && w < |init.pcs|
    ensures |Run(init, es).pcs| == |init.pcs| && Run(init, es).jobs == init.jobs
    ensures Asked(Run(init, es).pcs[w]).Some? ==> WasResolved(init, es, w, Asked(Run(init, es).pcs[w]).value)
    decreases |es|
  {
    if es != [] {
      var before, e := es[..|es| - 1], es[|es| - 1];
      AskedWasResolved(init, before, w);
      RunSnoc(init, before, e);
      assert before + [e] == es;
      InitialAsks(init);
      RunAsks(init, before);
      StepAsks(Run(init, before), e);
      if Asked(Run(init, es).pcs[w]).Some? {
        StillResolved(init, before, e, w);
      }
    }
  }

  lemma {:induction false} InitialAsks(init: State)
    requires Initial(init)
    ensures AllAsk(init)
  {
  }

  lemma {:induction false} StillResolved(init: State, before: seq<Event>, e: Event, w: nat)
    requires w < |init.jobs| && var s, t := Run(init, before), Step(Run(init, before), e);
             && w < |s.pcs| == |t.pcs| == |s.jobs| && s.jobs == init.jobs && Asked(t.pcs[w]).Some?
             && (Asked(s.pcs[w]).Some? ==> WasResolved(init, before, w, Asked(s.pcs[w]).value))
             && (w != e.w ==> t.pcs[w] == s.pcs[w])
             && (!Enabled(s, e) ==> t == s)
             && (w == e.w && Enabled(s, e) && !e.Resolve? ==> Asked(t.pcs[w]) == Asked(s.pcs[w]))
    ensures WasResolved(init, before + [e], w, Asked(Step(Run(init, before), e).pcs[w]).value)
  {
    hide Run;
    var s, es := Run(init, before), before + [e];
    var mode := Asked(Step(s, e).pcs[w]).value;
    if w == e.w && Enabled(s, e) && e.Resolve? {
      assert es[|before|] == Resolve(w) && es[..|before|] == before;
    } else {
      hide Step;
      var n :| 0 <= n < |before| && before[n] == Resolve(w) && Enabled(Run(init, before[..n]), before[n])
               && mode == Resolved(Run(init, before[..n]), init.jobs[w].want);
      assert es[n] == before[n] && es[..n] == before[..n];
    }
  }

  /** In every interleaving, with writes cut anywhere, calls failing anywhere and processes dying
      anywhere: a path that was there stays there; and a path names the file it did to begin
      with, unchanged, or one writer's complete payload at exactly the mode that writer asked
      for, be it a given one or that of the file it named when it asked. */
  lemma {:induction false} ReadersSeeOldOrNew(init: State, es: seq<Event>, path: string)
    requires Initial(init)
    ensures Plain(path) in init.names ==> Plain(path) in Run(init, es).names
    ensures Plain(path) in Run(init, es).names ==>
            var s := Run(init, es);
            var ino := s.names[Plain(path)];
            ino in s.files && s.jobs == init.jobs && |s.pcs| == |s.jobs| &&
            (|| (Plain(path) in init.names && ino == init.names[Plain(path)] && s.files[ino] == init.files[ino])
             || exists w | 0 <= w < |s.pcs| ::
                  && s.jobs[w].dst == path && s.pcs[w].Done? && s.pcs[w].st.ino == ino
                  && s.files[ino] == File(s.jobs[w].payload, s.pcs[w].st.mode)
                  && (s.jobs[w].want.Exactly? ==> s.files[ino].mode == s.jobs[w].want.mode)
                  && WasResolved(init, es, w, s.files[ino].mode))
  {
    hide Run;
    InitialIsInOrder(init);
    RunKeeps(init, init, es);
    RunAsks(init, es);
    var s := Run(init, es);
    if Plain(path) in s.names {
      assert Published(init, s, path);
      if !(Plain(path) in init.names && s.names[Plain(path)] == init.names[Plain(path)]) {
        var w :| 0 <= w < |s.pcs| && s.pcs[w].Done? && s.jobs[w].dst == path && s.pcs[w].st.ino == s.names[Plain(path)];
        assert DoneOk(init, s, w) && AsksOk(s, w);
        AskedWasResolved(init, es, w);
      }
    }
  }

  // ---------------------------------------------------------------------
  // A version once read never changes
  // ---------------------------------------------------------------------

  /** The file is nobody's staging file. */
  ghost predicate Settled(s: State, ino: nat)
  {
    ino in s.files && forall v | 0 <= v < |s.pcs| && Staged(s.pcs[v]) :: Last(s.pcs[v]).st.ino != ino
  }

  lemma {:induction false} PublishedIsSettled(init: State, s: State, path: string)
    requires Inv(init, s) && Plain(path) in s.names
    ensures Settled(s, s.names[Plain(path)])
  {
    var ino := s.names[Plain(path)];
    assert Published(init, s, path);
    forall v | 0 <= v < |s.pcs| && Staged(s.pcs[v])
      ensures Last(s.pcs[v]).st.ino != ino
    {
      assert StageOk(init, s, v) && Alone(s, v);
    }
  }

  lemma {:induction false} StepLeavesSettled(init: State, s: State, e: Event, ino: nat)
    requires Inv(init, s) && Settled(s, ino)
    ensures Settled(Step(s, e), ino) && Step(s, e).files[ino] == s.files[ino]
  {
    if Enabled(s, e) {
      OthersStand(s, e);
      assert Staged(s.pcs[e.w]) ==> StageOk(init, s, e.w);
      MoverStaysOff(s, e, ino);
      hide Step, Inv, StageOk;
    }
  }

  /** The writer that moves touches no file but its staging file. */
  lemma {:induction false} MoverStaysOff(s: State, e: Event, ino: nat)
    requires Enabled(s, e) && ino in s.files
    requires Staged(s.pcs[e.w]) ==>
               var st := Last(s.pcs[e.w]).st;
               st.ino != ino && st.tmp in s.names && s.names[st.tmp] == st.ino
    ensures var t := Step(s, e);
            && |t.pcs| == |s.pcs| && ino in t.files && t.files[ino] == s.files[ino]
            && (Staged(t.pcs[e.w]) ==> Last(t.pcs[e.w]).st.ino != ino)
  {
    hide Resolved;
    assert Last(Dead(s.pcs[e.w])) == Last(s.pcs[e.w]);
  }

  lemma {:induction false} RunLeavesSettled(init: State, s: State, es: seq<Event>, ino: nat)
    requires Inv(init, s) && Settled(s, ino)
    ensures Settled(Run(s, es), ino) && Run(s, es).files[ino] == s.files[ino]
    decreases |es|
  {
    hide Inv, Step, Settled;
    if es != [] {
      SettledIsThere(s, ino);
      StepKeeps(init, s, es[0]);
      StepLeavesSettled(init, s, es[0], ino);
      SettledIsThere(Step(s, es[0]), ino);
      RunLeavesSettled(init, Step(s, es[0]), es[1..], ino);
      SettledIsThere(Run(s, es), ino);
    } else {
      SettledIsThere(s, ino);
    }
  }

  lemma {:induction false} SettledIsThere(s: State, ino: nat)
    requires Settled(s, ino)
    ensures ino in s.files
  {
  }

  /** A reader that opened a path at any moment goes on reading that one version, whole and at
      its one mode, whatever happens to the path afterwards. */
  lemma {:induction false} OpenedVersionNeverChanges(init: State, before: seq<Event>, after: seq<Event>, path: string)
    requires Initial(init) && Plain(path) in Run(init, before).names
    ensures var s := Run(init, before);
            var ino := s.names[Plain(path)];
            ino in s.files && ino in Run(s, after).files && Run(s, after).files[ino] == s.files[ino]
  {
    InitialIsInOrder(init);
    RunKeeps(init, init, before);
    var s := Run(init, before);
    PublishedIsSettled(init, s, path);
    RunLeavesSettled(init, s, after, s.names[Plain(path)]);
    SettledIsThere(Run(s, after), s.names[Plain(path)]);
  }

  // ---------------------------------------------------------------------
  // Staging files
  // ---------------------------------------------------------------------

  /** A staging file, left behind by a dead process or not, has one owner, holds a beginning of
      that owner's payload, and never carries a bit its owner did not ask for. */
  lemma {:induction false} StagingIsOwnedAndNarrow(init: State, es: seq<Event>, w: nat)
    requires Initial(init) && w < |Run(init, es).pcs| && Staged(Run(init, es).pcs[w])
    ensures var s := Run(init, es);
            var st := Last(s.pcs[w]).st;
            && w < |s.jobs| && st.ino in s.files
            && s.files[st.ino].data <= s.jobs[w].payload && s.files[st.ino].mode <= st.mode
            && (s.jobs[w].want.Exactly? ==> s.files[st.ino].mode <= s.jobs[w].want.mode)
            && (forall name | name in s.names && s.names[name] == st.ino :: name == st.tmp)
            && forall v | 0 <= v < |s.pcs| && v != w && Staged(s.pcs[v]) :: Last(s.pcs[v]).st.tmp != st.tmp
  {
    hide Run;
    InitialIsInOrder(init);
    RunKeeps(init, init, es);
    RunAsks(init, es);
    var s := Run(init, es);
    assert StageOk(init, s, w) && Alone(s, w) && AsksOk(s, w);
  }

  /** Every staging name is one that was there before, a writer's that is still at work or died
      at it, or one a writer could not sweep. */
  ghost predicate Accounted(init: State, s: State, name: Name)
  {
    || name in init.names
    || exists w | 0 <= w < |s.pcs| ::
         (Staged(s.pcs[w]) && Last(s.pcs[w]).st.tmp == name) || s.pcs[w] == Failed(Some(name))
  }

  ghost predicate NoLitter(init: State, s: State)
  {
    forall name | name in s.names && name.Temp? :: Accounted(init, s, name)
  }

  /** A writer keeps its staging name, or publishes or sweeps it, or is left with it. */
  lemma {:induction false} OwnerKeepsName(init: State, s: State, e: Event)
    requires Inv(init, s) && Enabled(s, e) && Staged(s.pcs[e.w])
    ensures var t, name := Step(s, e), Last(s.pcs[e.w]).st.tmp;
            e.w < |t.pcs| && (name in t.names ==>
              (Staged(t.pcs[e.w]) && Last(t.pcs[e.w]).st.tmp == name) || t.pcs[e.w] == Failed(Some(name)))
  {
    assert Last(Dead(s.pcs[e.w])) == Last(s.pcs[e.w]);
    assert StageOk(init, s, e.w);
  }

  /** Only a draw makes a staging name, and it is the drawer's. */
  lemma {:induction false} NamesComeFromDraws(s: State, e: Event, name: Name)
    requires Enabled(s, e) && name.Temp? && name in Step(s, e).names && name !in s.names
    ensures var t := Step(s, e); e.w < |t.pcs| && Staged(t.pcs[e.w]) && Last(t.pcs[e.w]).st.tmp == name
  {
    hide Resolved;
  }

  lemma {:induction false} OthersStand(s: State, e: Event)
    ensures var t := Step(s, e);
            |t.pcs| == |s.pcs| && forall v | 0 <= v < |s.pcs| && v != e.w :: t.pcs[v] == s.pcs[v]
    ensures Enabled(s, e) ==> !s.pcs[e.w].Failed?
  {
    hide Resolved;
  }

  lemma {:induction false} StepAccounts(init: State, s: State, e: Event)
    requires Inv(init, s) && NoLitter(init, s)
    ensures NoLitter(init, Step(s, e))
  {
    hide Step, Inv, Last;
    if Enabled(s, e) {
      var t := Step(s, e);
      OthersStand(s, e);
      if Staged(s.pcs[e.w]) {
        OwnerKeepsName(init, s, e);
      }
      forall name | name in t.names && name.Temp?
        ensures Accounted(init, t, name)
      {
        if name !in s.names {
          NamesComeFromDraws(s, e, name);
        } else {
          assert Accounted(init, s, name);
          StillAccounted(init, s, t, e.w, name);
        }
      }
    } else {
      assert Step(s, e) == s by { NothingHappens(s, e); }
    }
  }

  lemma {:induction false} NothingHappens(s: State, e: Event)
    requires !Enabled(s, e)
    ensures Step(s, e) == s
  {
  }

  lemma {:induction false} StillAccounted(init: State, s: State, t: State, w: nat, name: Name)
    requires Accounted(init, s, name) && name in t.names && w < |s.pcs| == |t.pcs| && !s.pcs[w].Failed?
    requires forall v | 0 <= v < |s.pcs| && v != w :: t.pcs[v] == s.pcs[v]
    requires Staged(s.pcs[w]) && Last(s.pcs[w]).st.tmp == name ==>
               (Staged(t.pcs[w]) && Last(t.pcs[w]).st.tmp == name) || t.pcs[w] == Failed(Some(name))
    ensures Accounted(init, t, name)
  {
    if name !in init.names {
      var v :| 0 <= v < |s.pcs| &&
               ((Staged(s.pcs[v]) && Last(s.pcs[v]).st.tmp == name) || s.pcs[v] == Failed(Some(name)));
      assert (Staged(t.pcs[v]) && Last(t.pcs[v]).st.tmp == name) || t.pcs[v] == Failed(Some(name));
    }
  }

  lemma {:induction false} RunAccounts(init: State, s: State, es: seq<Event>)
    requires Inv(init, s) && NoLitter(init, s)
    ensures NoLitter(init, Run(s, es))
    decreases |es|
  {
    hide Inv, NoLitter, Step;
    if es != [] {
      StepKeeps(init, s, es[0]);
      StepAccounts(init, s, es[0]);
      RunAccounts(init, Step(s, es[0]), es[1..]);
    }
  }

  /** A writer that returned leaves nothing beside the destination, unless sweeping failed. */
  lemma {:induction false} NothingIsLeftBeside(init: State, es: seq<Event>, name: Name)
    requires Initial(init) && name.Temp? && name in Run(init, es).names && name !in init.names
    ensures var s := Run(init, es);
            exists w | 0 <= w < |s.pcs| ::
              (Staged(s.pcs[w]) && Last(s.pcs[w]).st.tmp == name) || s.pcs[w] == Failed(Some(name))
  {
    hide Run;
    InitialIsInOrder(init);
    RunAccounts(init, init, es);
    assert Accounted(init, Run(init, es), name);
  }

  // ---------------------------------------------------------------------
  // Rewriting a file keeps its mode
  // ---------------------------------------------------------------------

  /** Every writer of the path means to keep its mode. */
  ghost predicate AllKeepMode(s: State, path: string)
  {
    forall w | 0 <= w < |s.jobs| && s.jobs[w].dst == path :: s.jobs[w].want == Like(path)
  }

  ghost predicate ModeKept(s: State, path: string, mode: Mode)
  {
    && |s.pcs| == |s.jobs| && Resolved(s, Like(path)) == mode && mode <= NINE
    && forall w | 0 <= w < |s.pcs| && s.jobs[w].dst == path && Asked(s.pcs[w]).Some? ::
         Asked(s.pcs[w]).value == mode
  }

  lemma {:induction false} StepKeepsMode(init: State, s: State, e: Event, path: string, mode: Mode)
    requires Inv(init, s) && AllAsk(s) && AllKeepMode(s, path) && ModeKept(s, path, mode)
    ensures ModeKept(Step(s, e), path, mode)
  {
    var t := Step(s, e);
    StepAsks(s, e);
    if Enabled(s, e) {
      var w, pc := e.w, s.pcs[e.w];
      assert Staged(pc) ==> StageOk(init, s, w) && Alone(s, w);
      if Plain(path) in s.names {
        PublishedIsSettled(init, s, path);
        StepLeavesSettled(init, s, e, s.names[Plain(path)]);
      }
      if e.Rename? && s.jobs[w].dst == path {
        assert Asked(pc) == Some(pc.st.mode) && mode * NINE == mode;
      } else {
        assert Plain(path) in t.names <==> Plain(path) in s.names;
      }
    }
  }

  lemma {:induction false} RunKeepsMode(init: State, s: State, es: seq<Event>, path: string, mode: Mode)
    requires Inv(init, s) && AllAsk(s) && AllKeepMode(s, path) && ModeKept(s, path, mode)
    ensures ModeKept(Run(s, es), path, mode)
    decreases |es|
  {
    hide Inv, AllAsk, Step, ModeKept;
    if es != [] {
      StepKeeps(init, s, es[0]);
      StepAsks(s, es[0]);
      StepKeepsMode(init, s, es[0], path, mode);
      RunKeepsMode(init, Step(s, es[0]), es[1..], path, mode);
    }
  }

  /** While every writer of a path keeps the mode of the file it replaces, the path's permission
      bits never change, neither wider nor narrower; a file that was not there comes private. */
  lemma {:induction false} RewritingNeverChangesTheMode(init: State, es: seq<Event>, path: string)
    requires Initial(init) && AllKeepMode(init, path) && Plain(path) in Run(init, es).names
    ensures var s := Run(init, es);
            var ino := s.names[Plain(path)];
            ino in s.files && s.files[ino].mode * NINE ==
            if Plain(path) in init.names then init.files[init.names[Plain(path)]].mode * NINE else PRIVATE_FILE_MODE
  {
    hide Run;
    InitialIsInOrder(init);
    RunKeeps(init, init, es);
    RunKeepsMode(init, init, es, path, Resolved(init, Like(path)));
    assert Published(init, Run(init, es), path);
  }
}
