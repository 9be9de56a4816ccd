/** The agent's persistent state: what each change does, when it counts as a
    change, and the dirty-flag protocol between the mutators and the flusher. */
module StateStore {
  import opened Options
  import Records

  datatype FileCursor = FileCursor(path: string, offset: nat, touched: int, firstLineHash: Option<Records.Word>)

  datatype StateFile = StateFile(
    files: map<string, FileCursor>,
    knownInputs: set<string>,
    checkpoints: map<string, string>)

  const REFRESH_SECS := 60

  /** A call that may change the state; keys are "<input>|<identity>". */
  datatype Change =
    | SetCursor(key: string, path: string, offset: nat, hash: Option<Records.Word>, now: int)
    | SetCheckpoint(name: string, value: string)
    | MarkKnown(input: string)
    | Prune(cutoff: int)

  function Pruned(st: StateFile, cutoff: int): StateFile {
    st.(files := map k | k in st.files && st.files[k].touched >= cutoff :: st.files[k])
  }

  /** The new state, and whether the dirty flag is to be set. */
  function Apply(st: StateFile, c: Change): (StateFile, bool) {
    match c
    case SetCursor(key, path, offset, hash, now) =>
      if key in st.files && st.files[key].offset == offset && st.files[key].firstLineHash == hash then
        if now - st.files[key].touched < REFRESH_SECS then (st, false)
        else (st.(files := st.files[key := st.files[key].(touched := now)]), true)
      else (st.(files := st.files[key := FileCursor(path, offset, now, hash)]), true)
    case SetCheckpoint(name, value) =>
      if name in st.checkpoints && st.checkpoints[name] == value then (st, false)
      else (st.(checkpoints := st.checkpoints[name := value]), true)
    case MarkKnown(input) =>
      (st.(knownInputs := st.knownInputs + {input}), input !in st.knownInputs)
    case Prune(cutoff) => (Pruned(st, cutoff), |Pruned(st, cutoff).files| != |st.files|)
  }

  /** A call sets the flag if and only if it changes the state. */
  lemma FlaggedIffChanged(st: StateFile, c: Change)
    ensures Apply(st, c).1 <==> Apply(st, c).0 != st
  {
    match c
    case Prune(cutoff) =>
      var p := Pruned(st, cutoff);
      if |p.files| == |st.files| {
        SameSizeSubset(p.files.Keys, st.files.Keys);
        assert p.files == st.files;
      }
    case MarkKnown(input) =>
      if input in st.knownInputs { assert st.knownInputs + {input} == st.knownInputs; }
    case SetCursor(key, path, offset, hash, now) =>
      var t := Apply(st, c).0;
      if Apply(st, c).1 { assert key !in st.files || t.files[key] != st.files[key]; }
    case SetCheckpoint(name, value) =>
      var t := Apply(st, c).0;
      if Apply(st, c).1 { assert name !in st.checkpoints || t.checkpoints[name] != st.checkpoints[name]; }
  }

  lemma SameSizeSubset<T>(a: set<T>, b: set<T>)
    requires a <= b && |a| == |b|
    ensures a == b
  {
    if a != b {
      var x :| x in b && x !in a;
      assert a <= b - {x};
      SubsetSize(a, b - {x});
    }
  }

  lemma {:induction false} SubsetSize<T>(a: set<T>, b: set<T>)
    requires a <= b
    ensures |a| <= |b|
    decreases a
  {
    if a != {} {
      var x :| x in a;
      SubsetSize(a - {x}, b - {x});
    }
  }

  /** What is read back after a call: the offset and hash just given, under any key
      but this one what was there, and never an older time stamp. */
  lemma CursorReadBack(st: StateFile, key: string, path: string, offset: nat, hash: Option<Records.Word>, now: int,
                       other: string)
    ensures var t := Apply(st, SetCursor(key, path, offset, hash, now)).0;
      && key in t.files && t.files[key].offset == offset && t.files[key].firstLineHash == hash
      && now - t.files[key].touched < REFRESH_SECS
      && (other != key ==> (other in t.files <==> other in st.files))
      && (other != key && other in st.files ==> t.files[other] == st.files[other])
  {
  }

  /** Setting a cursor again within the minute leaves everything as it is, the path
      included; otherwise the time stamp is the present, and a moved offset or another
      hash brings its path with it. */
  lemma CursorRefresh(st: StateFile, key: string, path: string, offset: nat, hash: Option<Records.Word>, now: int)
    ensures var t := Apply(st, SetCursor(key, path, offset, hash, now)).0;
      var same := key in st.files && st.files[key].offset == offset && st.files[key].firstLineHash == hash;
      && t.knownInputs == st.knownInputs && t.checkpoints == st.checkpoints
      && key in t.files
      && (same && now - st.files[key].touched < REFRESH_SECS ==> t == st)
      && (!(same && now - st.files[key].touched < REFRESH_SECS) ==> t.files[key].touched == now)
      && t.files[key].path == if same then st.files[key].path else path
  {
  }

  /** A checkpoint is read back as it was set, an input once marked is known, and
      neither touches anything else. */
  lemma CheckpointReadBack(st: StateFile, name: string, value: string, other: string)
    ensures var t := Apply(st, SetCheckpoint(name, value)).0;
      && t.files == st.files && t.knownInputs == st.knownInputs
      && name in t.checkpoints && t.checkpoints[name] == value
      && (other != name ==> (other in t.checkpoints <==> other in st.checkpoints))
      && (other != name && other in st.checkpoints ==> t.checkpoints[other] == st.checkpoints[other])
    ensures var t := Apply(st, MarkKnown(name)).0;
      && t.files == st.files && t.checkpoints == st.checkpoints
      && (other in t.knownInputs <==> other == name || other in st.knownInputs)
  {
  }

  /** From `st` to `t` exactly the cursors not touched since the cutoff are gone. */
  ghost predicate Expires(st: StateFile, t: StateFile, cutoff: int) {
    && t.knownInputs == st.knownInputs && t.checkpoints == st.checkpoints
    && (forall k :: k in t.files <==> k in st.files && st.files[k].touched >= cutoff)
    && (forall k :: k in t.files ==> t.files[k] == st.files[k])
  }

  // --------------------------------------------------------------- the class

  class StateManager {
    var files: map<string, FileCursor>
    var knownInputs: set<string>
    var checkpoints: map<string, string>
    var dirty: bool
    var disk: StateFile

    constructor (disk: StateFile)
      ensures Memory() == disk && this.disk == disk && !dirty
    {
      this.disk, files, knownInputs, checkpoints, dirty := disk, disk.files, disk.knownInputs, disk.checkpoints, false;
    }

    function Memory(): StateFile
      reads this
    {
      StateFile(files, knownInputs, checkpoints)
    }

    method SetCursorFor(key: string, path: string, offset: nat, hash: Option<Records.Word>, now: int)
      modifies this`files, this`dirty
      ensures var (m, flag) := Apply(old(Memory()), SetCursor(key, path, offset, hash, now));
        Memory() == m && dirty == (old(dirty) || flag)
    {
      if key in files {
        var existing := files[key];
        if existing.offset == offset && existing.firstLineHash == hash {
          if now - existing.touched < REFRESH_SECS {
            return;
          }
          files := files[key := existing.(touched := now)];
          dirty := true;
          return;
        }
        files := files[key := existing.(offset := offset, path := path, firstLineHash := hash, touched := now)];
      } else {
        files := files[key := FileCursor(path, offset, now, hash)];
      }
      dirty := true;
    }

    method SetCheckpointFor(name: string, value: string)
      modifies this`checkpoints, this`dirty
      ensures var (m, flag) := Apply(old(Memory()), SetCheckpoint(name, value));
        Memory() == m && dirty == (old(dirty) || flag)
    {
      if name in checkpoints && checkpoints[name] == value {
        return;
      }
      checkpoints := checkpoints[name := value];
      dirty := true;
    }

    method MarkKnownInput(input: string)
      modifies this`knownInputs, this`dirty
      ensures var (m, flag) := Apply(old(Memory()), MarkKnown(input));
        Memory() == m && dirty == (old(dirty) || flag)
    {
      if input !in knownInputs {
        knownInputs := knownInputs + {input};
        dirty := true;
      }
    }

    method PruneOlder(cutoff: int)
      modifies this`files, this`dirty
      ensures var (m, flag) := Apply(old(Memory()), Prune(cutoff));
        Memory() == m && dirty == (old(dirty) || flag)
      ensures Expires(old(Memory()), Memory(), cutoff)
    {
      var before := |files|;
      files := map k | k in files && files[k].touched >= cutoff :: files[k];
      if |files| != before {
        dirty := true;
      }
    }

    /** Persist if dirty; a failure leaves the flag set for the next call. */
    method Flush(cutoff: int, encoded: bool, written: bool) returns (ok: bool)
      modifies this`files, this`dirty, this`disk
      ensures !old(dirty) ==> ok && Memory() == old(Memory()) && disk == old(disk) && !dirty
      ensures old(dirty) ==> Memory() == Pruned(old(Memory()), cutoff) && ok == (encoded && written) && dirty == !ok
      ensures old(dirty) ==> disk == if ok then Memory() else old(disk)
      ensures old(dirty) ==> Expires(old(Memory()), Memory(), cutoff)
    {
      if !dirty {
        return true;
      }
      dirty := false;
      files := map k | k in files && files[k].touched >= cutoff :: files[k];
      ok := encoded && written;
      if ok {
        disk := Memory();
      } else {
        dirty := true;
      }
    }
  }

  // ------------------------------------------------------------ interleavings

  /** The flusher between its steps. */
  datatype Flusher =
    | Ready
    | Swapped                       // found the flag set and cleared it
    | Snapped(copy: StateFile)      // pruned and serialised under the lock
    | Failing                       // about to set the flag again

  datatype Shared = Shared(
    memory: StateFile,
    disk: StateFile,
    dirty: bool,
    flagging: bool,                 // a mutator holds the lock, its change made, the flag not yet set
    flusher: Flusher)

  datatype Step =
    | Change(change: Change)        // under the lock
    | Flag                          // still under the lock
    | Swap
    | Snap(cutoff: int)
    | EncodeFails(failedCutoff: int)
    | Write(ok: bool)
    | Reflag

  predicate Enabled(s: Shared, step: Step) {
    match step
    case Change(_) => !s.flagging
    case Flag => s.flagging
    case Swap => s.flusher.Ready?
    case Snap(_) => s.flusher.Swapped? && !s.flagging
    case EncodeFails(_) => s.flusher.Swapped? && !s.flagging
    case Write(_) => s.flusher.Snapped?
    case Reflag => s.flusher.Failing?
  }

  function Next(s: Shared, step: Step): Shared
    requires Enabled(s, step)
  {
    match step
    case Change(c) => var (m, flag) := Apply(s.memory, c); s.(memory := m, flagging := flag)
    case Flag => s.(dirty := true, flagging := false)
    case Swap => if s.dirty then s.(dirty := false, flusher := Swapped) else s
    case Snap(cutoff) =>
      var m := Pruned(s.memory, cutoff);
      s.(memory := m, flusher := Snapped(m))
    case EncodeFails(cutoff) => s.(memory := Pruned(s.memory, cutoff), flusher := Failing)
    case Write(ok) => if ok then s.(disk := s.flusher.copy, flusher := Ready) else s.(flusher := Failing)
    case Reflag => s.(dirty := true, flusher := Ready)
  }

  /** With the flag clear, what is on disk, or is about to be, is memory exactly
      if no mutator stands between its change and the flag. */
  ghost predicate Noticed(s: Shared) {
    && (s.flusher.Ready? && !s.dirty ==> (s.disk == s.memory <==> !s.flagging))
    && (s.flusher.Snapped? && !s.dirty ==> (s.flusher.copy == s.memory <==> !s.flagging))
  }

  lemma StepNoticed(s: Shared, step: Step)
    requires Noticed(s) && Enabled(s, step)
    ensures Noticed(Next(s, step))
  {
    if step.Change? {
      hide Apply;
      FlaggedIffChanged(s.memory, step.change);
    }
  }

  ghost predicate Runs(s: Shared, steps: seq<Step>)
    decreases |steps|
  {
    steps == [] || (Enabled(s, steps[0]) && Runs(Next(s, steps[0]), steps[1..]))
  }

  ghost function After(s: Shared, steps: seq<Step>): Shared
    requires Runs(s, steps)
    decreases |steps|
  {
    if steps == [] then s else After(Next(s, steps[0]), steps[1..])
  }

  lemma {:induction false} RunNoticed(s: Shared, steps: seq<Step>)
    requires Noticed(s) && Runs(s, steps)
    ensures Noticed(After(s, steps))
    decreases |steps|
  {
    hide Enabled, Next, Noticed;
    if steps != [] {
      StepNoticed(s, steps[0]);
      RunNoticed(Next(s, steps[0]), steps[1..]);
    }
  }

  /** No lost update: in every interleaving of mutators with one flusher, failed
      writes included, whenever the flag is clear and no flush is under way, the disk
      holds exactly what memory holds if and only if no mutator is inside its
      critical section with its change made and the flag not yet set. */
  lemma CleanIsPersistedIff(s: Shared, steps: seq<Step>)
    requires s.disk == s.memory && !s.dirty && !s.flagging && s.flusher.Ready? && Runs(s, steps)
    ensures var t := After(s, steps);
      !t.dirty && t.flusher.Ready? ==> (t.disk == t.memory <==> !t.flagging)
  {
    RunNoticed(s, steps);
  }

  /** The state holds this very cursor. */
  predicate Has(st: StateFile, key: string, c: FileCursor) {
    key in st.files && st.files[key] == c
  }

  /** A step that neither sets the cursor of the key nor prunes what was touched at `touched`. */
  predicate Spares(step: Step, key: string, touched: int) {
    match step
    case Change(c) => (c.SetCursor? ==> c.key != key) && (c.Prune? ==> c.cutoff <= touched)
    case Snap(cutoff) => cutoff <= touched
    case EncodeFails(cutoff) => cutoff <= touched
    case _ => true
  }

  /** Some snapshot among the steps, or one `taken` before them, is written. */
  ghost predicate Saves(steps: seq<Step>, taken: bool)
    decreases |steps|
  {
    steps != []
    && (if steps[0].Snap? then Saves(steps[1..], true)
        else (taken && steps[0] == Write(true)) || Saves(steps[1..], taken))
  }

  /** Memory has the cursor, a snapshot taken since has it, and so has the disk once
      one was written. */
  ghost predicate Carries(s: Shared, key: string, c: FileCursor, taken: bool, saved: bool) {
    && Has(s.memory, key, c)
    && (taken && s.flusher.Snapped? ==> Has(s.flusher.copy, key, c))
    && (saved ==> taken && Has(s.disk, key, c))
  }

  lemma StepCarries(s: Shared, step: Step, key: string, c: FileCursor, taken: bool, saved: bool)
    requires Enabled(s, step) && Carries(s, key, c, taken, saved) && Spares(step, key, c.touched)
    ensures Carries(Next(s, step), key, c, taken || step.Snap?, saved || (taken && step == Write(true)))
  {
  }

  lemma {:induction false} RunCarries(s: Shared, steps: seq<Step>, key: string, c: FileCursor, taken: bool, saved: bool)
    requires Runs(s, steps) && Carries(s, key, c, taken, saved)
    requires forall i :: 0 <= i < |steps| ==> Spares(steps[i], key, c.touched)
    ensures Has(After(s, steps).memory, key, c)
    ensures saved || Saves(steps, taken) ==> Has(After(s, steps).disk, key, c)
    decreases |steps|
  {
    hide Enabled, Next, Spares, Has;
    if steps != [] {
      var step := steps[0];
      StepCarries(s, step, key, c, taken, saved);
      RunCarries(Next(s, step), steps[1..], key, c, taken || step.Snap?, saved || (taken && step == Write(true)));
    }
  }

  /** A cursor survives: in every interleaving, a cursor that is set, and not set again
      since, reads back from memory as long as nothing is pruned up to the minute before
      it was set, and from disk once a snapshot taken since was written. */
  lemma SetCursorSurvives(s: Shared, key: string, path: string, offset: nat, hash: Option<Records.Word>, now: int,
                          steps: seq<Step>)
    requires var call := Change(SetCursor(key, path, offset, hash, now));
      Enabled(s, call) && Runs(Next(s, call), steps)
    requires forall i :: 0 <= i < |steps| ==> Spares(steps[i], key, now - REFRESH_SECS + 1)
    ensures var t := After(Next(s, Change(SetCursor(key, path, offset, hash, now))), steps);
      && key in t.memory.files && t.memory.files[key].offset == offset && t.memory.files[key].firstLineHash == hash
      && (Saves(steps, false) ==>
            key in t.disk.files && t.disk.files[key].offset == offset && t.disk.files[key].firstLineHash == hash)
  {
    hide Runs, After, Saves, Apply;
    CursorReadBack(s.memory, key, path, offset, hash, now, key);
    var t := Next(s, Change(SetCursor(key, path, offset, hash, now)));
    var c := t.memory.files[key];
    forall i | 0 <= i < |steps| ensures Spares(steps[i], key, c.touched) {
      assert Spares(steps[i], key, now - REFRESH_SECS + 1);
    }
    RunCarries(t, steps, key, c, false, false);
  }

  /** And otherwise it need not: an expired cursor is gone with the next flush. */
  lemma ExpiredIsForgotten(s: Shared, key: string, cutoff: int)
    requires s.dirty && s.flusher.Ready? && !s.flagging
    requires key in s.memory.files && s.memory.files[key].touched < cutoff
    ensures var steps := [Swap, Snap(cutoff), Write(true)];
      Runs(s, steps) && var t := After(s, steps); key !in t.memory.files && key !in t.disk.files
  {
    QuietFlush(s, cutoff);
  }

  /** That does happen: between a mutator's change and its flag, the flag is clear
      and disk and memory differ. */
  lemma ClearFlagIsNotEnough(s: Shared, name: string, value: string)
    requires s.disk == s.memory && !s.dirty && !s.flagging && s.flusher.Ready?
    requires name !in s.memory.checkpoints
    ensures var step := Change(SetCheckpoint(name, value));
      Enabled(s, step) && var t := Next(s, step); !t.dirty && t.flusher.Ready? && t.disk != t.memory
  {
    var t := Next(s, Change(SetCheckpoint(name, value)));
    assert name in t.memory.checkpoints;
  }

  /** A pass of the flusher with no mutator active. */
  lemma QuietFlush(s: Shared, cutoff: int)
    requires s.dirty && s.flusher.Ready? && !s.flagging
    ensures var steps := [Swap, Snap(cutoff), Write(true)];
      Runs(s, steps) && var m := Pruned(s.memory, cutoff);
      After(s, steps) == s.(memory := m, disk := m, dirty := false)
  {
    var a := Next(s, Swap);
    var b := Next(a, Snap(cutoff));
    var c := Next(b, Write(true));
    assert [Swap, Snap(cutoff), Write(true)][1..] == [Snap(cutoff), Write(true)];
    assert [Snap(cutoff), Write(true)][1..] == [Write(true)];
    assert Runs(c, []) && After(c, []) == c;
    assert Runs(b, [Write(true)]) && After(b, [Write(true)]) == c;
    assert Runs(a, [Snap(cutoff), Write(true)]) && After(a, [Snap(cutoff), Write(true)]) == c;
  }

  /** A quiet flush always catches up: with no mutator active, one successful pass
      leaves disk and memory equal and the flag clear. */
  lemma FlushCatchesUp(s: Shared, cutoff: int)
    requires Noticed(s) && s.flusher.Ready? && !s.flagging
    ensures var steps := if s.dirty then [Swap, Snap(cutoff), Write(true)] else [Swap];
      Runs(s, steps) && var t := After(s, steps); t.disk == t.memory && !t.dirty && t.flusher.Ready?
  {
    if s.dirty {
      QuietFlush(s, cutoff);
    } else {
      var a := Next(s, Swap);
      assert Runs(a, []) && After(a, []) == a;
    }
  }
}
