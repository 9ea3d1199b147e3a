/**
 Moving the recording archive to another directory: copy everything, then retire the source.

 A tree maps paths, relative to its root, to nodes. Every system call may fail, and a failed copy may leave
 anything at the path it was creating. `history` holds every state the two trees passed through.
 */
module Migration {
  import opened Decimals

  type Path = seq<string>

  datatype Node = File(bytes: string) | Directory | Link | Special

  type Tree = map<Path, Node>

  datatype State = State(source: Tree, target: Tree)

  // ------------------------------------------------------------------- names

  /** `grep` looks at each line of a name on its own; one line that matches is enough. */
  predicate AnyLine(name: string, matches: string -> bool) {
    exists i, j ::
      && 0 <= i <= j <= |name|
      && (i == 0 || name[i - 1] == '\n') && (j == |name| || name[j] == '\n')
      && '\n' !in name[i..j] && matches(name[i..j])
  }

  predicate IsHex(c: char) { IsDigit(c) || 'a' <= c <= 'f' }

  predicate DeviceLine(line: string) {
    && 8 <= |line| <= 27
    && line[..7] == "device-"
    && line[7] != '0'
    && forall i :: 7 <= i < |line| ==> IsDigit(line[i])
  }

  predicate RecordingLine(line: string) {
    && |line| >= 36
    && line[36..] in {".json", ".mp4", ".webm"}
    && forall i :: 0 <= i < 36 ==> if i in {8, 13, 18, 23} then line[i] == '-' else IsHex(line[i])
  }

  predicate DeviceName(name: string) { AnyLine(name, DeviceLine) }

  predicate RecordingName(name: string) { AnyLine(name, RecordingLine) }

  /** A name on one line is accepted as a whole; one with several lines as soon as its last line is. */
  lemma OneLineDecides(name: string, matches: string -> bool)
    ensures '\n' !in name ==> (AnyLine(name, matches) <==> matches(name))
    ensures forall more: string :: '\n' !in name && matches(name) ==> AnyLine(more + "\n" + name, matches)
  {
    if '\n' !in name {
      assert name[0..|name|] == name;
      if matches(name) {
        assert AnyLine(name, matches);
      }
      assert forall k :: 0 <= k < |name| ==> name[k] != '\n';
      forall more: string | matches(name) ensures AnyLine(more + "\n" + name, matches) {
        var whole, i := more + "\n" + name, |more| + 1;
        assert whole[i..|whole|] == name && whole[i - 1] == '\n';
      }
    }
  }

  /** Device directories are named by the decimal spelling of a positive number of at most twenty digits. */
  lemma DeviceLineNamesANumber(line: string) returns (n: nat)
    requires DeviceLine(line)
    ensures 0 < n < Pow10(20) && line == "device-" + Decimal(n)
  {
    var digits := line[7..];
    assert line == line[..7] + digits;
    assert forall i :: 0 <= i < |digits| ==> digits[i] == line[7 + i];
    DecimalOfNumber(digits);
    n := Number(digits);
    Pow10Grows(|digits|, 20);
  }

  lemma NumberNamesADeviceLine(n: nat)
    requires 0 < n < Pow10(20)
    ensures DeviceLine("device-" + Decimal(n))
  {
    DecimalLength(n, 20);
    NoLeadingZero(n);
    var line := "device-" + Decimal(n);
    assert line[..7] == "device-" && line[7] == Decimal(n)[0];
    assert forall i :: 7 <= i < |line| ==> line[i] == Decimal(n)[i - 7];
  }

  lemma {:induction false} Pow10Grows(a: nat, b: nat)
    requires a <= b
    ensures Pow10(a) <= Pow10(b)
  {
    if a < b {
      Pow10Grows(a, b - 1);
    }
  }

  predicate Hex(s: string, length: nat) {
    |s| == length && forall i :: 0 <= i < |s| ==> '0' <= s[i] <= '9' || 'a' <= s[i] <= 'f'
  }

  /** Recording files are named by a hyphenated lower-case UUID and one of three extensions. */
  lemma RecordingLineParts(line: string) returns (a: string, b: string, c: string, d: string, e: string, x: string)
    requires RecordingLine(line)
    ensures Hex(a, 8) && Hex(b, 4) && Hex(c, 4) && Hex(d, 4) && Hex(e, 12)
      && (x == ".json" || x == ".mp4" || x == ".webm")
    ensures line == a + "-" + b + "-" + c + "-" + d + "-" + e + x
  {
    a, b, c, d, e, x := line[..8], line[9..13], line[14..18], line[19..23], line[24..36], line[36..];
    assert line[8] == '-' && line[13] == '-' && line[18] == '-' && line[23] == '-';
  }

  lemma PartsMakeARecordingLine(a: string, b: string, c: string, d: string, e: string, x: string)
    requires Hex(a, 8) && Hex(b, 4) && Hex(c, 4) && Hex(d, 4) && Hex(e, 12)
      && (x == ".json" || x == ".mp4" || x == ".webm")
    ensures RecordingLine(a + "-" + b + "-" + c + "-" + d + "-" + e + x)
  {
    var line := a + "-" + b + "-" + c + "-" + d + "-" + e + x;
    assert line[36..] == x;
    forall i | 0 <= i < 36
      ensures if i in {8, 13, 18, 23} then line[i] == '-' else IsHex(line[i])
    {
      if i < 8 {
        assert line[i] == a[i];
      } else if 8 < i < 13 {
        assert line[i] == b[i - 9];
      } else if 13 < i < 18 {
        assert line[i] == c[i - 14];
      } else if 18 < i < 23 {
        assert line[i] == d[i - 19];
      } else if 23 < i {
        assert line[i] == e[i - 24];
      }
    }
  }

  // ------------------------------------------------------------------- trees

  /** Every entry lies in a directory. */
  ghost predicate Tidy(t: Tree) {
    forall p :: p in t ==> |p| > 0 && (|p| > 1 ==> p[..|p| - 1] in t && t[p[..|p| - 1]] == Directory)
  }

  predicate Under(at: Path, p: Path) {
    |at| <= |p| && p[..|at|] == at
  }

  function Names(t: Tree, dir: Path): set<string> {
    set p | p in t && |p| == |dir| + 1 && Under(dir, p) :: p[|dir|]
  }

  lemma NameIsEntry(t: Tree, dir: Path, n: string)
    ensures n in Names(t, dir) <==> dir + [n] in t
  {
    var p := dir + [n];
    assert p[..|dir|] == dir && p[|dir|] == n;
    if n in Names(t, dir) {
      var q :| q in t && |q| == |dir| + 1 && Under(dir, q) && q[|dir|] == n;
      assert q == p;
    }
  }

  lemma {:induction false} AncestorIsDirectory(t: Tree, p: Path, k: nat)
    requires Tidy(t) && p in t && 0 < k < |p|
    ensures p[..k] in t && t[p[..k]] == Directory
    decreases |p| - k
  {
    if k + 1 < |p| {
      AncestorIsDirectory(t, p, k + 1);
      assert p[..k + 1][..k] == p[..k];
    }
  }

  /** An entry below `dir` lies at or below one of its children. */
  lemma BelowAChild(t: Tree, dir: Path, p: Path)
    requires Tidy(t) && p in t && Under(dir, p) && p != dir
    ensures |dir| < |p| && p[|dir|] in Names(t, dir) && Under(dir + [p[|dir|]], p)
    ensures dir + [p[|dir|]] in t
    ensures p != dir + [p[|dir|]] ==> t[dir + [p[|dir|]]] == Directory
  {
    var child := dir + [p[|dir|]];
    assert child == p[..|dir| + 1];
    if |dir| + 1 < |p| {
      AncestorIsDirectory(t, p, |dir| + 1);
    }
    NameIsEntry(t, dir, p[|dir|]);
  }

  /** Everything at or below `at` in `s` is the same in `t`. */
  ghost predicate Holds(s: Tree, t: Tree, at: Path) {
    forall p :: p in s && Under(at, p) ==> p in t && t[p] == s[p]
  }

  ghost predicate Agree(s: Tree, t: Tree, at: Path) {
    Holds(s, t, at) && Holds(t, s, at)
  }

  /** `t` has everything that `s` has. */
  ghost predicate Extends(s: Tree, t: Tree) {
    forall p :: p in s ==> p in t && t[p] == s[p]
  }

  /** The trees differ only at or below `at`. */
  ghost predicate DifferOnly(s: Tree, t: Tree, at: Path) {
    forall p :: !Under(at, p) ==> (p in s <==> p in t) && (p in s ==> s[p] == t[p])
  }

  // ------------------------------------------------------------------- what can be moved

  datatype Phase = Copying | Retiring

  /** Whether a phase can get through a directory, said of the trees it starts with. */
  ghost predicate DirFits(phase: Phase, s: Tree, t: Tree, dir: Path)
    requires |dir| <= 1
    decreases 1 - |dir|, 1
  {
    && (dir in t ==> if phase.Copying? then t[dir].Directory? else !t[dir].Link?)
    && forall n :: n in Names(s, dir) ==> EntryFits(phase, s, t, dir, n)
  }

  ghost predicate EntryFits(phase: Phase, s: Tree, t: Tree, dir: Path, n: string)
    requires |dir| <= 1
    decreases 1 - |dir|, 0
  {
    var p := dir + [n];
    p in s &&
    match s[p]
    case File(_) => RecordingName(n) && (phase.Retiring? || p in t ==> p in t && t[p] == s[p])
    case Directory => dir == [] && DeviceName(n) && DirFits(phase, s, t, p)
    case _ => false
  }

  /** Only what lies below an entry decides whether it fits. */
  lemma {:induction false} FitsByContents(phase: Phase, s1: Tree, t1: Tree, s2: Tree, t2: Tree, dir: Path, n: string)
    requires |dir| <= 1 && Agree(s1, s2, dir + [n]) && Agree(t1, t2, dir + [n])
    ensures EntryFits(phase, s1, t1, dir, n) <==> EntryFits(phase, s2, t2, dir, n)
    decreases 1 - |dir|
  {
    var p := dir + [n];
    assert Under(p, p);
    if dir == [] {
      forall m ensures m in Names(s1, p) <==> m in Names(s2, p)
               ensures EntryFits(phase, s1, t1, p, m) <==> EntryFits(phase, s2, t2, p, m) {
        var q := p + [m];
        assert forall r :: Under(q, r) ==> Under(p, r) by {
          assert forall r :: Under(q, r) ==> r[..|q|][..|p|] == r[..|p|];
        }
        assert Under(q, q);
        NameIsEntry(s1, p, m);
        NameIsEntry(s2, p, m);
        FitsByContents(phase, s1, t1, s2, t2, p, m);
      }
    }
  }

  // ------------------------------------------------------------------- safety

  /** Nothing of the original archive is lost or altered: every file is still whole on one side, the target kept
      all it had, and the source gained nothing. */
  ghost predicate Safe(origin: State, now: State) {
    && (forall p :: p in origin.source && origin.source[p].File? ==> Kept(origin.source[p], now, p))
    && Extends(origin.target, now.target)
    && Extends(now.source, origin.source)
  }

  ghost predicate Kept(file: Node, now: State, p: Path) {
    (p in now.source && now.source[p] == file) || (p in now.target && now.target[p] == file)
  }

  class Archive {
    var source: Tree
    var target: Tree
    ghost var history: seq<State>
    ghost var faulted: bool       // some system call failed

    /** Every state so far was safe. */
    ghost predicate Keeps(origin: State)
      reads this
    {
      && Tidy(source) && Tidy(target)
      && history != [] && history[|history| - 1] == State(source, target)
      && forall i :: 0 <= i < |history| ==> Safe(origin, history[i])
    }

    constructor (source: Tree, target: Tree)
      requires Tidy(source) && Tidy(target)
      ensures this.source == source && this.target == target
      ensures Keeps(State(source, target)) && history == [State(source, target)] && !faulted
    {
      this.source, this.target := source, target;
      history, faulted := [State(source, target)], false;
    }

    // ----------------------------------------------------------------- system calls

    method Fault() returns (ok: bool)
      modifies this`faulted
      ensures faulted == (old(faulted) || !ok)
    {
      ok := *;
      faulted := faulted || !ok;
    }

    /** Creates or overwrites one entry of the target. */
    method Put(ghost origin: State, p: Path, node: Node)
      requires Keeps(origin) && source == origin.source && p !in origin.target && p != []
      requires p in target ==> target[p].File?
      requires |p| > 1 ==> p[..|p| - 1] in target && target[p[..|p| - 1]] == Directory
      modifies this`target, this`history
      ensures Keeps(origin) && target == old(target)[p := node]
    {
      target := target[p := node];
      PutIsTidy(old(target), p, node);
      history := history + [State(source, target)];
    }

    method Mkdir(ghost origin: State, dir: Path) returns (ok: bool)
      requires Keeps(origin) && source == origin.source
      requires |dir| <= 1
      modifies this`target, this`history, this`faulted
      ensures Keeps(origin) && Extends(old(target), target) && DifferOnly(old(target), target, dir)
      ensures ok && dir != [] ==> dir in target && target[dir] == Directory
      ensures forall p :: p in target && p != dir ==> p in old(target)
      ensures old(faulted) ==> faulted
      ensures ok ==> dir !in old(target) || old(target)[dir] == Directory
      ensures !faulted && (dir !in old(target) || old(target)[dir] == Directory) ==> ok
    {
      if dir == [] {
        return true;
      }
      if dir in target {
        return target[dir].Directory?;
      }
      ok := Fault();
      if ok {
        Put(origin, dir, Directory);
      }
    }

    /** Copies one file unless the target has it, then compares. */
    method CopyFile(ghost origin: State, p: Path) returns (ok: bool)
      requires Keeps(origin) && source == origin.source && p in source && source[p].File?
      requires |p| > 1 ==> p[..|p| - 1] in target && target[p[..|p| - 1]] == Directory
      modifies this`target, this`history, this`faulted
      ensures Keeps(origin) && Extends(old(target), target)
      ensures forall q :: q in target && q != p ==> q in old(target)
      ensures ok ==> p in target && target[p] == source[p]
      ensures old(faulted) ==> faulted
      ensures ok ==> p !in old(target) || old(target)[p] == source[p]
      ensures !faulted && (p !in old(target) || old(target)[p] == source[p]) ==> ok
    {
      if p in target {
        if !target[p].File? {
          return false;
        }
      } else {
        ok := Cp(origin, p);
        if !ok {
          return;
        }
      }
      ok := Fault();
      ok := ok && target[p] == source[p];
    }

    /** A copy that goes wrong may leave anything, and may even report success. */
    method Cp(ghost origin: State, p: Path) returns (ok: bool)
      requires Keeps(origin) && source == origin.source && p in source && source[p].File? && p !in target
      requires |p| > 1 ==> p[..|p| - 1] in target && target[p[..|p| - 1]] == Directory
      modifies this`target, this`history, this`faulted
      ensures Keeps(origin)
      ensures target == old(target) || (p in target && PutAt(old(target), target, p))
      ensures ok ==> p in target && target[p].File?
      ensures old(faulted) ==> faulted
      ensures !faulted ==> ok && target[p] == source[p]
    {
      ok := Fault();
      if !ok {
        return;
      }
      assert p !in origin.target by {
        assert Safe(origin, history[|history| - 1]);
      }
      ghost var t0 := target;
      var partial: string := *;
      Put(origin, p, File(partial));
      assert PutAt(t0, target, p);
      var exact := Fault();
      if exact {
        Put(origin, p, source[p]);
        assert PutAt(t0, target, p);
      }
      var reported: bool := *;
      ok := exact || reported;
    }

    // ----------------------------------------------------------------- copying

    /** Copies a directory. The source stays whole; without faults it succeeds exactly when the directory fits. */
    method CopyTree(ghost origin: State, dir: Path) returns (ok: bool)
      requires Keeps(origin) && source == origin.source
      requires |dir| <= 1 && (dir != [] ==> dir in source && source[dir] == Directory)
      modifies this`target, this`history, this`faulted
      ensures Keeps(origin) && Grown(source, old(target), target, dir)
      ensures ok ==> Holds(source, target, dir)
      ensures old(faulted) ==> faulted
      ensures ok ==> DirFits(Copying, source, old(target), dir)
      ensures !faulted && DirFits(Copying, source, old(target), dir) ==> ok
      decreases 1 - |dir|, 1
    {
      ghost var t0 := target;
      ok := Mkdir(origin, dir);
      if !ok {
        return;
      }
      var rest := Names(source, dir);
      MkdirLeavesEntries(source, t0, target, dir);
      while rest != {}
        invariant Keeps(origin) && rest <= Names(source, dir)
        invariant Grown(source, t0, target, dir) && (dir != [] ==> dir in target && target[dir] == Directory)
        invariant Done(source, target, dir, rest) && Waiting(t0, target, dir, rest)
        invariant old(faulted) ==> faulted
        invariant FitSoFar(Copying, source, t0, dir, rest) && (dir in t0 ==> t0[dir].Directory?)
        decreases |rest|
      {
        var n :| n in rest;
        NameIsEntry(source, dir, n);
        ghost var t1 := target;
        ok := CopyEntry(origin, dir, n);
        StepGrows(source, t0, t1, target, dir, n, rest);
        FitsByContents(Copying, source, t0, source, t1, dir, n);
        if !ok {
          return;
        }
        StepDone(source, t1, target, dir, n, rest);
        rest := rest - {n};
      }
      AllDone(source, target, dir);
      ok := true;
    }

    method CopyEntry(ghost origin: State, dir: Path, n: string) returns (ok: bool)
      requires Keeps(origin) && source == origin.source
      requires |dir| <= 1 && dir + [n] in source && (dir != [] ==> dir in target && target[dir] == Directory)
      modifies this`target, this`history, this`faulted
      ensures Keeps(origin) && Grown(source, old(target), target, dir + [n])
      ensures ok ==> Holds(source, target, dir + [n])
      ensures old(faulted) ==> faulted
      ensures ok ==> EntryFits(Copying, source, old(target), dir, n)
      ensures !faulted && EntryFits(Copying, source, old(target), dir, n) ==> ok
      decreases 1 - |dir|, 0
    {
      var p := dir + [n];
      assert p[..|p| - 1] == dir;
      assert Under(p, p);
      match source[p]
      case Directory =>
        if dir != [] || !DeviceName(n) {
          return false;
        }
        ok := CopyTree(origin, p);
      case File(_) =>
        if !RecordingName(n) {
          return false;
        }
        ok := CopyFile(origin, p);
        FileIsAlone(source, p);
      case _ => ok := false;
    }

    // ----------------------------------------------------------------- retiring

    /** Removes one entry of the source: a file that the target holds, or an empty directory. */
    method Remove(ghost origin: State, p: Path) returns (ok: bool)
      requires Keeps(origin) && p in source && (source[p].File? ==> p in target && target[p] == source[p])
      requires forall q :: q in source && Under(p, q) ==> q == p
      modifies this`source, this`history, this`faulted
      ensures Keeps(origin) && source == if ok then old(source) - {p} else old(source)
      ensures faulted == (old(faulted) || !ok)
    {
      ok := Fault();
      if ok {
        RemoveIsSafe(origin, State(source, target), p);
        source := source - {p};
        history := history + [State(source, target)];
      }
    }

    /** Empties a directory of the source. Nothing is assumed about what copying did before. */
    method RetireTree(ghost origin: State, dir: Path) returns (ok: bool)
      requires Keeps(origin) && |dir| <= 1 && (dir != [] ==> dir in source && source[dir] == Directory)
      modifies this`source, this`history, this`faulted
      ensures Keeps(origin) && Shrunk(old(source), source, dir) && (dir != [] ==> dir in source)
      ensures ok ==> forall p :: p in source && Under(dir, p) ==> p == dir
      ensures old(faulted) ==> faulted
      ensures ok ==> DirFits(Retiring, old(source), target, dir)
      ensures !faulted && DirFits(Retiring, old(source), target, dir) ==> ok
      decreases 1 - |dir|, 3
    {
      ghost var s0 := source;
      RetireStart(source, target, dir);
      if dir in target && target[dir].Link? {
        return false;
      }
      ok := RetireEntries(origin, dir);
      if ok {
        RetireEnd(s0, source, target, dir);
      }
    }

    method RetireEntries(ghost origin: State, dir: Path) returns (ok: bool)
      requires Keeps(origin) && |dir| <= 1 && (dir != [] ==> dir in source && source[dir] == Directory)
      modifies this`source, this`history, this`faulted
      ensures Keeps(origin) && Shrunk(old(source), source, dir) && (dir != [] ==> dir in source)
      ensures ok ==> Retired(old(source), source, target, dir, {})
      ensures old(faulted) ==> faulted
      ensures !faulted && !ok ==> !DirFits(Retiring, old(source), target, dir)
      decreases 1 - |dir|, 2
    {
      ghost var s0 := source;
      var rest := Names(source, dir);
      RetireStart(source, target, dir);
      while rest != {}
        invariant Keeps(origin) && Retired(s0, source, target, dir, rest)
        invariant old(faulted) ==> faulted
        decreases |rest|
      {
        var n :| n in rest;
        ok := RetireNext(origin, s0, dir, n, rest);
        if !ok {
          return;
        }
        rest := rest - {n};
      }
      ok := true;
    }

    /** Retires one entry of those left. */
    method RetireNext(ghost origin: State, ghost s0: Tree, dir: Path, n: string, ghost rest: set<string>)
      returns (ok: bool)
      requires Keeps(origin) && |dir| <= 1 && Retired(s0, source, target, dir, rest) && n in rest
      modifies this`source, this`history, this`faulted
      ensures Keeps(origin) && Shrunk(s0, source, dir) && (dir != [] ==> dir in source)
      ensures ok ==> Retired(s0, source, target, dir, rest - {n})
      ensures old(faulted) ==> faulted
      ensures !faulted && !ok ==> !DirFits(Retiring, s0, target, dir)
      decreases 1 - |dir|, 1
    {
      NameIsEntry(source, dir, n);
      ghost var s1 := source;
      ok := RetireEntry(origin, dir, n);
      RetireStep(s0, s1, source, target, dir, n, rest);
    }

    method RetireEntry(ghost origin: State, dir: Path, n: string) returns (ok: bool)
      requires Keeps(origin) && |dir| <= 1 && dir + [n] in source
      modifies this`source, this`history, this`faulted
      ensures Keeps(origin) && Shrunk(old(source), source, dir + [n])
      ensures ok ==> dir + [n] !in source
      ensures old(faulted) ==> faulted
      ensures ok ==> EntryFits(Retiring, old(source), target, dir, n)
      ensures !faulted && EntryFits(Retiring, old(source), target, dir, n) ==> ok
      decreases 1 - |dir|, 0
    {
      var p := dir + [n];
      assert Under(p, p);
      match source[p]
      case Directory =>
        if dir != [] || !DeviceName(n) {
          return false;
        }
        ok := RetireTree(origin, p);
        if ok {
          ok := Remove(origin, p);
        }
      case File(_) =>
        if (p in target && target[p].Link?) || !RecordingName(n) {
          return false;
        }
        ok := Fault();
        if ok {
          ok := p in target && target[p] == source[p];
        }
        if ok {
          FileIsAlone(source, p);
          ok := Remove(origin, p);
        }
      case _ => ok := false;
    }

    // ----------------------------------------------------------------- the whole migration

    /**
     In every state on the way, each file of the source is whole in the source or in the target and the target has
     all it had. Failing while copying leaves the source whole. Success leaves the source empty and the target
     with both archives. Without faults it succeeds exactly when every entry fits, decided before anything moves;
     once all is copied, whatever interrupts the rest, a later run without faults completes it.
     */
    method Migrate(linked: bool, same: bool) returns (ok: bool, ghost copied: bool)
      requires Tidy(source) && Tidy(target) && history == [State(source, target)] && !faulted
      modifies this
      ensures Keeps(old(State(source, target)))
      ensures !copied ==> source == old(source)
      ensures linked || same ==> source == old(source) && target == old(target)
      ensures ok && !same ==> copied && source == map[] && target == old(target) + old(source)
      ensures ok ==> !linked && (same || DirFits(Copying, old(source), old(target), []))
      ensures !faulted && !linked && (same || DirFits(Copying, old(source), old(target), [])) ==> ok
      ensures copied ==> target == old(target) + old(source) && DirFits(Copying, source, target, [])
    {
      ghost var origin := State(source, target);
      copied := false;
      if linked {
        return false, copied;
      }
      ok := Fault();
      if !ok || same {
        return;
      }
      ok := CopyTree(origin, []);
      if !ok {
        return;
      }
      copied := true;
      MergedExactly(source, origin.target, target);
      CopiedCanRetire(source, origin.target, target, []);
      ok := RetireTree(origin, []);
      RetiringCanResume(origin.source, origin.target, source, target, []);
      if ok {
        assert forall p :: p in source ==> Under([], p);
        assert source == map[];
      }
    }
  }

  /** New entries of `t` appear only at or below `at`, and only where the source has one. */
  ghost predicate Grown(s: Tree, t0: Tree, t: Tree, at: Path) {
    Extends(t0, t) && forall p :: p in t && p !in t0 ==> Under(at, p) && p in s
  }

  /** Only entries at or below `at` are gone. */
  ghost predicate Shrunk(s0: Tree, s: Tree, at: Path) {
    Extends(s, s0) && forall p :: p in s0 && p !in s ==> Under(at, p)
  }

  ghost predicate Done(s: Tree, t: Tree, dir: Path, rest: set<string>) {
    forall n :: n in Names(s, dir) && n !in rest ==> Holds(s, t, dir + [n])
  }

  ghost predicate Waiting(t0: Tree, t: Tree, dir: Path, rest: set<string>) {
    forall n :: n in rest ==> Agree(t0, t, dir + [n])
  }

  ghost predicate FitSoFar(phase: Phase, s: Tree, t: Tree, dir: Path, rest: set<string>)
    requires |dir| <= 1
  {
    forall n :: n in Names(s, dir) && n !in rest ==> EntryFits(phase, s, t, dir, n)
  }

  lemma MkdirLeavesEntries(s: Tree, t0: Tree, t: Tree, dir: Path)
    requires Extends(t0, t) && forall p :: p in t && p != dir ==> p in t0
    ensures Waiting(t0, t, dir, Names(s, dir))
  {
  }

  lemma StepGrows(s: Tree, t0: Tree, t1: Tree, t: Tree, dir: Path, n: string, rest: set<string>)
    requires Grown(s, t0, t1, dir) && Grown(s, t1, t, dir + [n]) && Waiting(t0, t1, dir, rest)
    ensures Grown(s, t0, t, dir) && Waiting(t0, t, dir, rest - {n})
  {
    var at := dir + [n];
    assert forall p :: Under(at, p) ==> p[..|at|][..|dir|] == p[..|dir|] && p[|dir|] == p[..|at|][|dir|] == n;
    forall m | m in rest - {n} ensures Agree(t0, t, dir + [m]) {
      assert Agree(t0, t1, dir + [m]);
      forall p | p in t && Under(dir + [m], p) ensures p in t0 && t[p] == t0[p] {
        assert p[..|dir| + 1][|dir|] == m;
      }
    }
  }

  lemma StepShrinks(s0: Tree, s1: Tree, s: Tree, dir: Path, n: string, rest: set<string>)
    requires Shrunk(s0, s1, dir) && Shrunk(s1, s, dir + [n]) && Waiting(s0, s1, dir, rest)
    ensures Shrunk(s0, s, dir) && Waiting(s0, s, dir, rest - {n}) && (dir in s1 ==> dir in s)
  {
    var at := dir + [n];
    assert forall p :: Under(at, p) ==> p[..|at|][..|dir|] == p[..|dir|] && p[|dir|] == p[..|at|][|dir|] == n;
    forall m | m in rest - {n} ensures Agree(s0, s, dir + [m]) {
      assert Agree(s0, s1, dir + [m]);
      forall p | p in s0 && Under(dir + [m], p) ensures p in s && s[p] == s0[p] {
        assert p[..|dir| + 1][|dir|] == m;
      }
    }
  }

  /** All but the entries in `rest` are retired. */
  ghost predicate Retired(s0: Tree, s: Tree, t: Tree, dir: Path, rest: set<string>)
    requires |dir| <= 1
  {
    && rest == Names(s, dir) && Shrunk(s0, s, dir) && (dir != [] ==> dir in s)
    && Waiting(s0, s, dir, rest) && FitSoFar(Retiring, s0, t, dir, rest)
  }

  lemma RetireStart(s: Tree, t: Tree, dir: Path)
    requires |dir| <= 1 && (dir != [] ==> dir in s)
    ensures Retired(s, s, t, dir, Names(s, dir)) && Shrunk(s, s, dir)
    ensures dir in t && t[dir].Link? ==> !DirFits(Retiring, s, t, dir)
  {
  }

  lemma RetireEnd(s0: Tree, s: Tree, t: Tree, dir: Path)
    requires |dir| <= 1 && Tidy(s) && Retired(s0, s, t, dir, {}) && (dir in t ==> !t[dir].Link?)
    ensures DirFits(Retiring, s0, t, dir) && Shrunk(s0, s, dir) && (dir != [] ==> dir in s)
    ensures forall p :: p in s && Under(dir, p) ==> p == dir
  {
    NothingBelow(s, dir);
  }

  lemma RetireStep(s0: Tree, s1: Tree, s: Tree, t: Tree, dir: Path, n: string, rest: set<string>)
    requires |dir| <= 1 && Retired(s0, s1, t, dir, rest) && n in rest && Shrunk(s1, s, dir + [n])
    ensures Shrunk(s0, s, dir) && (dir != [] ==> dir in s)
    ensures !EntryFits(Retiring, s1, t, dir, n) ==> !DirFits(Retiring, s0, t, dir)
    ensures EntryFits(Retiring, s1, t, dir, n) && dir + [n] !in s ==> Retired(s0, s, t, dir, rest - {n})
  {
    StepShrinks(s0, s1, s, dir, n, rest);
    FitsByContents(Retiring, s0, t, s1, t, dir, n);
    NameIsEntry(s0, dir, n);
    NameIsEntry(s1, dir, n);
    if dir + [n] !in s {
      NameGone(s1, s, dir, n);
    }
  }

  lemma NameGone(s1: Tree, s: Tree, dir: Path, n: string)
    requires Shrunk(s1, s, dir + [n]) && dir + [n] !in s
    ensures Names(s, dir) == Names(s1, dir) - {n}
  {
    forall m ensures m in Names(s, dir) <==> m in Names(s1, dir) - {n} {
      NameIsEntry(s, dir, m);
      NameIsEntry(s1, dir, m);
      assert Under(dir + [n], dir + [m]) ==> (dir + [m])[|dir|] == (dir + [n])[|dir|];
    }
  }

  lemma NothingBelow(s: Tree, dir: Path)
    requires Tidy(s) && Names(s, dir) == {}
    ensures forall p :: p in s && Under(dir, p) ==> p == dir
  {
    forall p | p in s && Under(dir, p) ensures p == dir {
      if p != dir {
        BelowAChild(s, dir, p);
      }
    }
  }

  lemma RemoveIsSafe(origin: State, now: State, p: Path)
    requires Safe(origin, now) && Tidy(now.source) && p in now.source
    requires now.source[p].File? ==> p in now.target && now.target[p] == now.source[p]
    requires forall q :: q in now.source && Under(p, q) ==> q == p
    ensures Safe(origin, State(now.source - {p}, now.target)) && Tidy(now.source - {p})
  {
    var s := now.source - {p};
    forall q | q in s ensures |q| > 0 && (|q| > 1 ==> q[..|q| - 1] in s && s[q[..|q| - 1]] == Directory) {
      assert q[..|q| - 1] == p ==> Under(p, q);
    }
    forall q | q in origin.source && origin.source[q].File?
      ensures Kept(origin.source[q], State(s, now.target), q)
    {
      assert Kept(origin.source[q], now, q);
    }
  }

  /** What was copied in full can be retired in full. */
  lemma {:induction false} CopiedCanRetire(s: Tree, t0: Tree, t: Tree, dir: Path)
    requires |dir| <= 1 && Holds(s, t, dir) && DirFits(Copying, s, t0, dir) && Tidy(t)
    requires dir != [] ==> dir in s && s[dir] == Directory
    ensures DirFits(Retiring, s, t, dir)
    decreases 1 - |dir|
  {
    assert Under(dir, dir);
    forall n | n in Names(s, dir) ensures EntryFits(Retiring, s, t, dir, n) {
      var p := dir + [n];
      NameIsEntry(s, dir, n);
      assert EntryFits(Copying, s, t0, dir, n);
      assert Under(dir, p);
      if s[p] == Directory {
        assert forall q :: Under(p, q) ==> q[..|p|][..|dir|] == q[..|dir|];
        CopiedCanRetire(s, t0, t, p);
      }
    }
  }

  /** What is left of a source that was copied in full still fits. */
  lemma {:induction false} RetiringCanResume(s0: Tree, t0: Tree, s: Tree, t: Tree, dir: Path)
    requires |dir| <= 1 && DirFits(Copying, s0, t0, dir) && Holds(s0, t, dir) && Extends(s, s0) && Tidy(t)
    requires dir != [] ==> dir in s0 && s0[dir] == Directory
    ensures DirFits(Copying, s, t, dir)
    decreases 1 - |dir|
  {
    assert Under(dir, dir);
    forall n | n in Names(s, dir) ensures EntryFits(Copying, s, t, dir, n) {
      var p := dir + [n];
      NameIsEntry(s, dir, n);
      NameIsEntry(s0, dir, n);
      assert EntryFits(Copying, s0, t0, dir, n);
      assert Under(dir, p);
      if s[p] == Directory {
        assert forall q :: Under(p, q) ==> q[..|p|][..|dir|] == q[..|dir|];
        RetiringCanResume(s0, t0, s, t, p);
      }
    }
  }

  lemma MergedExactly(s: Tree, t0: Tree, t: Tree)
    requires Holds(s, t, []) && Grown(s, t0, t, [])
    ensures t == t0 + s
  {
    assert forall p :: p in s ==> Under([], p);
    assert (t0 + s).Keys == t.Keys;
  }

  lemma StepDone(s: Tree, t1: Tree, t: Tree, dir: Path, n: string, rest: set<string>)
    requires Done(s, t1, dir, rest) && Extends(t1, t) && Holds(s, t, dir + [n])
    ensures Done(s, t, dir, rest - {n})
  {
    forall m | m in Names(s, dir) && m !in rest - {n} ensures Holds(s, t, dir + [m]) {
      assert m == n || Holds(s, t1, dir + [m]);
    }
  }

  lemma AllDone(s: Tree, t: Tree, dir: Path)
    requires Tidy(s) && Done(s, t, dir, {})
    requires dir in s ==> dir in t && t[dir] == s[dir]
    ensures Holds(s, t, dir)
  {
    forall p | p in s && Under(dir, p) ensures p in t && t[p] == s[p] {
      if p != dir {
        BelowAChild(s, dir, p);
        assert Holds(s, t, dir + [p[|dir|]]);
      }
    }
  }

  /** Nothing lies below a file. */
  lemma FileIsAlone(t: Tree, p: Path)
    requires Tidy(t) && p in t && t[p].File?
    ensures forall q :: q in t && Under(p, q) ==> q == p
  {
    forall q | q in t && Under(p, q) ensures q == p {
      if |q| > |p| {
        AncestorIsDirectory(t, q, |p|);
      }
    }
  }

  ghost predicate PutAt(t0: Tree, t: Tree, p: Path) {
    t.Keys == t0.Keys + {p} && forall q :: q in t0 && q != p ==> t[q] == t0[q]
  }

  lemma PutIsTidy(t: Tree, p: Path, node: Node)
    requires Tidy(t) && p != [] && (p in t ==> t[p].File?)
    requires |p| > 1 ==> p[..|p| - 1] in t && t[p[..|p| - 1]] == Directory
    ensures Tidy(t[p := node])
  {
  }
}
