/** The authenticated store file and its monotonic anchor (store.py). */
module Store {
  import opened Base
  import opened Durable

  /** What may lie in the file's place: nothing, an empty file, unauthentic bytes, or a snapshot with a valid MAC. */
  datatype Image = Missing | Empty | Unauthentic | Signed(snapshot: Snapshot)

  /** `_read`: `None` where it raises. */
  function Read(file: Image, floor: Option<int>): Option<Snapshot> {
    match file
    case Missing => Some(EMPTY_SNAPSHOT)
    case Empty => None
    case Unauthentic => None
    case Signed(s) => if floor.Some? && s.sequence < floor.value then None else Some(s)
  }

  /** What `rebind_boot` starts from: an empty file counts as a fresh store. */
  function Rebindable(file: Image, floor: Option<int>): Option<Snapshot> {
    if file.Empty? then Some(EMPTY_SNAPSHOT) else Read(file, floor)
  }

  /** Two snapshots that differ in nothing but the boot identity. */
  predicate SameButBoot(a: Snapshot, b: Snapshot) {
    a.(bootId := "") == b.(bootId := "")
  }

  /** An open file; one `os.write` takes any number of the bytes offered, or none. */
  class Descriptor {
    var content: seq<bv8>

    method WriteSome(data: seq<bv8>) returns (n: nat)
      modifies this
      ensures n <= |data| && content == old(content) + data[..n]
    {
      var k: int := *;
      n := if 0 <= k <= |data| then k else 0;
      content := content + data[..n];
    }
  }

  /** `write_all`: short writes are continued, a write of nothing is an error; only a prefix is ever written. */
  method WriteAll(fd: Descriptor, data: seq<bv8>) returns (ok: bool)
    modifies fd
    ensures ok ==> fd.content == old(fd.content) + data
    ensures exists n: nat :: n <= |data| && fd.content == old(fd.content) + data[..n]
  {
    var off: nat := 0;
    while off < |data|
      invariant off <= |data| && fd.content == old(fd.content) + data[..off]
    {
      var n := fd.WriteSome(data[off..]);
      assert data[..off] + data[off..][..n] == data[..off + n];
      off := off + n;
      if n == 0 {
        return false;
      }
    }
    assert data[..off] == data;
    return true;
  }

  class FileStore {
    var file: Image
    var floor: Option<int>      // the anchor's value, if the store has an anchor

    constructor (first: Snapshot, anchored: bool)
      ensures file == Signed(first) && floor == if anchored then Some(first.sequence) else None
    {
      file, floor := Signed(first), if anchored then Some(first.sequence) else None;
    }

    /** The file holds `s` and `s` passes the anchor. */
    predicate Holds(s: Snapshot)
      reads this
    {
      file == Signed(s) && (floor.Some? ==> floor.value <= s.sequence)
    }

    method ReadSnapshot() returns (r: Option<Snapshot>)
      ensures r == Read(file, floor)
      ensures forall s | Holds(s) :: r == Some(s)
    {
      match file {
        case Missing => return Some(EMPTY_SNAPSHOT);
        case Empty => return None;
        case Unauthentic => return None;
        case Signed(s) =>
          if floor.Some? && s.sequence < floor.value {
            return None;
          }
          return Some(s);
      }
    }

    /**
     `_write_atomic`: the anchor advances first, then the file is replaced; `crash` stops in between.
     */
    method WriteAtomic(s: Snapshot, crash: bool) returns (ok: bool)
      modifies this
      ensures floor == if old(floor).Some? && old(floor).value < s.sequence then Some(s.sequence) else old(floor)
      ensures ok <==> !crash && (old(floor).Some? ==> old(floor).value <= s.sequence)
      ensures file == if ok then Signed(s) else old(file)
    {
      if floor.Some? {
        if s.sequence < floor.value {
          return false;
        }
        if s.sequence > floor.value {
          floor := Some(s.sequence);
        }
      }
      if crash {
        return false;
      }
      file := Signed(s);
      return true;
    }

    method RebindBoot(bootId: string, crash: bool) returns (ok: bool)
      modifies this
      ensures ok ==> Rebindable(old(file), old(floor)).Some?
      ensures file == if ok then Signed(Rebindable(old(file), old(floor)).value.(bootId := bootId)) else old(file)
      ensures forall s | old(Holds(s)) && !crash :: ok && Holds(s.(bootId := bootId))
    {
      var s := ReadSnapshot();
      if s == None {
        if !file.Empty? {
          return false;
        }
        s := Some(EMPTY_SNAPSHOT);
      }
      ok := WriteAtomic(s.value.(bootId := bootId), crash);
    }
  }

  // ----- Rollback over whole runs -----

  /**
   The store under an adversary who may put back any snapshot ever written (each carries a valid MAC) or
   unauthentic bytes, or truncate the file. `written` and `last` are history: everything written, and the
   latest completed write.
   */
  datatype World = World(file: Image, floor: int, written: set<Snapshot>, last: Snapshot)

  datatype Action =
    | Transaction(next: Snapshot, crash: bool)   // read, then write a successor with the sequence raised by one
    | Rebind(bootId: string, crash: bool)
    | PutBack(earlier: Snapshot)
    | Corrupt
    | Truncate

  /** Every production write stores a successor of the snapshot it read. */
  predicate Enabled(w: World, act: Action) {
    match act
    case Transaction(next, _) =>
      var r := Read(w.file, Some(w.floor));
      r.Some? && next.sequence == r.value.sequence + 1
    case Rebind(_, _) => Rebindable(w.file, Some(w.floor)).Some?
    case PutBack(earlier) => earlier in w.written
    case Corrupt => true
    case Truncate => w.floor > 0   // see TruncationResetsExactly
  }

  function Write(w: World, s: Snapshot, crash: bool): World {
    if s.sequence < w.floor then w
    else
      var floor := if s.sequence > w.floor then s.sequence else w.floor;
      if crash then w.(floor := floor)
      else World(Signed(s), floor, w.written + {s}, s)
  }

  function Next(w: World, act: Action): World
    requires Enabled(w, act)
  {
    match act
    case Transaction(next, crash) => Write(w, next, crash)
    case Rebind(bootId, crash) => Write(w, Rebindable(w.file, Some(w.floor)).value.(bootId := bootId), crash)
    case PutBack(earlier) => w.(file := Signed(earlier))
    case Corrupt => w.(file := Unauthentic)
    case Truncate => w.(file := Empty)
  }

  /** Only copies of the last write, up to boot identity, can reach the floor. */
  ghost predicate Inv(w: World) {
    && !w.file.Missing? && (w.file.Empty? ==> w.floor > 0)
    && (w.file.Signed? ==> w.file.snapshot in w.written)
    && w.last in w.written
    && (forall s | s in w.written :: s.sequence <= w.floor)
    && (forall s | s in w.written && s.sequence == w.floor :: SameButBoot(s, w.last))
  }

  lemma NextInv(w: World, act: Action)
    requires Inv(w) && Enabled(w, act)
    ensures Inv(Next(w, act))
  {}

  datatype Run = Rest | Do(prior: Run, act: Action)

  ghost function At(first: Snapshot, run: Run): Option<World> {
    match run
    case Rest => Some(World(Signed(first), first.sequence, {first}, first))
    case Do(prior, act) =>
      match At(first, prior)
      case None => None
      case Some(w) => if Enabled(w, act) then Some(Next(w, act)) else None
  }

  lemma {:induction false} ReachableInv(first: Snapshot, run: Run)
    requires At(first, run).Some?
    ensures Inv(At(first, run).value)
  {
    if run.Do? {
      ReachableInv(first, run.prior);
      NextInv(At(first, run.prior).value, run.act);
    }
  }

  /** However the file was rolled back, a read fails or returns the last completed write, boot identity aside. */
  lemma NoRollback(first: Snapshot, run: Run)
    requires At(first, run).Some?
    ensures var w := At(first, run).value;
            var r := Read(w.file, Some(w.floor));
            r.Some? ==> SameButBoot(r.value, w.last)
  {
    ReachableInv(first, run);
  }

  /** A read succeeds exactly when the file is authentic and no crash has left the anchor ahead of it. */
  lemma ReadsExactly(first: Snapshot, run: Run)
    requires At(first, run).Some?
    ensures var w := At(first, run).value;
            Read(w.file, Some(w.floor)).Some? <==> w.file.Signed? && w.file.snapshot.sequence == w.floor
  {
    ReachableInv(first, run);
  }

  /** Everything an adversary can leave in the file's place, deletion included. */
  ghost predicate Plantable(w: World, image: Image) {
    image.Signed? ==> image.snapshot in w.written
  }

  /**
   Deleting the file is the one escape: `_read` does not consult the anchor for a missing file. Whatever
   is planted, the next read is rolled back exactly when the file is missing and something was written.
   */
  lemma RolledBackExactly(first: Snapshot, run: Run, image: Image)
    requires At(first, run).Some? && Plantable(At(first, run).value, image)
    ensures var w := At(first, run).value;
            var r := Read(image, Some(w.floor));
            r.Some? && !SameButBoot(r.value, w.last) <==> image.Missing? && !SameButBoot(EMPTY_SNAPSHOT, w.last)
  {
    ReachableInv(first, run);
  }

  /** Rebinding a truncated store replaces it by a fresh one exactly when the anchor still stands at zero. */
  lemma TruncationResetsExactly(w: World, bootId: string)
    requires w.file.Empty?
    ensures Next(w, Rebind(bootId, false)).file == Signed(EMPTY_SNAPSHOT.(bootId := bootId)) <==> w.floor <= 0
  {}

  // ----- The file store under that adversary -----

  lemma AtDo(first: Snapshot, run: Run, act: Action)
    requires At(first, run).Some? && Enabled(At(first, run).value, act)
    ensures At(first, Do(run, act)) == Some(Next(At(first, run).value, act))
  {}

  /** A file store with an anchor and the run that explains its file and floor. */
  class AnchoredStore {
    const store: FileStore
    ghost const first: Snapshot
    ghost var run: Run

    ghost predicate Valid()
      reads this, store
    {
      && At(first, run).Some?
      && store.file == Now().file && store.floor == Some(Now().floor)
    }

    ghost function Now(): World
      requires At(first, run).Some?
      reads this
    {
      At(first, run).value
    }

    constructor (first: Snapshot)
      ensures Valid() && Now().last == first && fresh(store)
    {
      this.first, run := first, Rest;
      store := new FileStore(first, true);
    }

    /** A read fails or returns the last completed write, boot identity aside. */
    method ReadSnapshot() returns (r: Option<Snapshot>)
      requires Valid()
      ensures r == Read(store.file, store.floor)
      ensures r.Some? ==> SameButBoot(r.value, Now().last)
    {
      r := store.ReadSnapshot();
      NoRollback(first, run);
    }

    /** Read, then write the successor; `crash` stops between the anchor and the file. */
    method Transact(change: Snapshot -> Snapshot, crash: bool) returns (ok: bool)
      requires Valid() && forall s :: change(s).sequence == s.sequence + 1
      modifies this, store
      ensures Valid() && (crash ==> !ok)
      ensures if ok then exists s :: SameButBoot(s, old(Now().last)) && Now().last == change(s)
              else Now().last == old(Now().last)
    {
      var r := ReadSnapshot();
      if r.None? {
        return false;
      }
      ReachableInv(first, run);
      AtDo(first, run, Transaction(change(r.value), crash));
      ok := store.WriteAtomic(change(r.value), crash);
      run := Do(run, Transaction(change(r.value), crash));
    }

    method RebindBoot(bootId: string, crash: bool) returns (ok: bool)
      requires Valid()
      modifies this, store
      ensures Valid() && (crash ==> !ok)
      ensures ok ==> Now().last.bootId == bootId && SameButBoot(Now().last, old(Now().last))
      ensures !ok ==> Now().last == old(Now().last)
    {
      NoRollback(first, run);
      ReachableInv(first, run);
      var s := store.ReadSnapshot();
      if s == None {
        if !store.file.Empty? {
          return false;
        }
        s := Some(EMPTY_SNAPSHOT);
      }
      AtDo(first, run, Rebind(bootId, crash));
      ok := store.WriteAtomic(s.value.(bootId := bootId), crash);
      run := Do(run, Rebind(bootId, crash));
    }

    /** The adversary puts back an earlier snapshot, unauthentic bytes, or, above a floor of zero, an empty file. */
    method Tamper(image: Image)
      requires Valid()
      requires match image
               case Missing => false
               case Empty => Now().floor > 0
               case Unauthentic => true
               case Signed(s) => s in Now().written
      modifies this, store
      ensures Valid() && Now().last == old(Now().last) && store.file == image
    {
      ghost var act := match image case Empty => Truncate case Signed(s) => PutBack(s) case _ => Corrupt;
      AtDo(first, run, act);
      store.file := image;
      run := Do(run, act);
    }
  }
}
