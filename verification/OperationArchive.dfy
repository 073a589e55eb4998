// alred/operation.py: archiving and restoring one operation, as file steps
// that may each fail, be interrupted or be cut off by a crash.
module OperationArchive {

  datatype Option<+T> = None | Some(value: T)

  datatype File = File(content: string, mode: nat)

  /** Regular files below the operation directory, without the lock file. */
  type Tree = map<string, File>

  datatype Record = Record(size: nat, digest: string, mode: nat)

  /** The tar file: its manifest and its members. */
  datatype Archive = Archive(manifest: map<string, Record>, members: map<string, string>)

  /** The entry in `.index`; no entry means a live tree in the old flat layout. */
  datatype Location = Live | Archived(digest: string)

  // ------------------------------------------------------ packing and unpacking

  /** `S_IMODE` keeps twelve bits, `mode & 0o777` nine. */
  const PERMISSION_BITS := 512

  function Masked(t: Tree): Tree {
    map p | p in t :: File(t[p].content, t[p].mode % PERMISSION_BITS)
  }

  ghost predicate PlainModes(t: Tree) {
    forall p :: p in t ==> t[p].mode < 512
  }

  function Pack(digest: string -> string, t: Tree): Archive {
    Archive(map p | p in t :: Record(|t[p].content|, digest(t[p].content), t[p].mode),
            map p | p in t :: t[p].content)
  }

  /** `read_operation_archive` with `verify_files`. */
  ghost predicate Verified(digest: string -> string, a: Archive) {
    a.manifest.Keys == a.members.Keys &&
    forall p :: p in a.manifest ==> a.manifest[p].size == |a.members[p]| && a.manifest[p].digest == digest(a.members[p])
  }

  /** What the restore writes: contents of the members, recorded modes without the high bits. */
  function Unpack(a: Archive): Tree
    requires a.manifest.Keys == a.members.Keys
  {
    map p | p in a.manifest :: File(a.members[p], a.manifest[p].mode % PERMISSION_BITS)
  }

  lemma PackVerified(digest: string -> string, t: Tree)
    ensures Verified(digest, Pack(digest, t)) && Unpack(Pack(digest, t)) == Masked(t)
  {}

  /** Packing then unpacking is the identity exactly on trees without setuid, setgid or sticky bits. */
  lemma RoundTrip(digest: string -> string, t: Tree)
    ensures Unpack(Pack(digest, t)) == t <==> PlainModes(t)
  {
    var u := Unpack(Pack(digest, t));
    if u == t {
      forall p | p in t ensures t[p].mode < 512 { assert u[p] == t[p]; }
    }
  }

  lemma MaskedTwice(t: Tree)
    ensures Masked(Masked(t)) == Masked(t) && PlainModes(Masked(t))
    ensures Masked(t) == t <==> PlainModes(t)
  {
    if Masked(t) == t {
      forall p | p in t ensures t[p].mode < 512 { assert Masked(t)[p] == t[p]; }
    }
  }

  // ---------------------------------------------------------------- file steps

  /** How a step ends: an exception, a signal that only `finally` blocks see, or no further step at all. */
  datatype Outcome = Done | Raised | Interrupted | Crashed

  /** One entry of the fault plan: the step may have taken effect although it did not end normally. */
  datatype Fault = Fault(applied: bool, outcome: Outcome)

  /** A command succeeds, refuses before its first step, or stops on the way. */
  datatype Result = Succeeded | Refused | Stopped(outcome: Outcome)

  class Storage {
    const digest: string -> string
    const fileDigest: Archive -> string
    const faults: nat -> Fault        // arbitrary
    ghost const original: Tree

    var step: nat
    var location: Option<Location>
    var live: Option<Tree>            // partly removed trees occur
    var lock: bool                    // `.operation.lock` in the live tree
    var archive: Option<Archive>
    var checksum: Option<string>
    var staging: Option<Tree>

    constructor (digest: string -> string, fileDigest: Archive -> string, faults: nat -> Fault,
                 tree: Tree, location: Option<Location>)
      requires location == None || location == Some(Live)
      ensures Safe() && original == tree && live == Some(tree) && this.location == location && archive == None
    {
      this.digest, this.fileDigest, this.faults := digest, fileDigest, faults;
      original := tree;
      step, lock := 0, false;
      this.location, live, archive, checksum, staging := location, Some(tree), None, None, None;
    }

    /** The original tree, or what one restore makes of it. */
    ghost predicate Preserved(t: Tree) {
      t == original || t == Masked(original)
    }

    /** The location entry names a complete copy. */
    ghost predicate Safe()
      reads this
    {
      match location
      case Some(Archived(d)) =>
        && archive.Some? && d == fileDigest(archive.value)
        && exists t :: Preserved(t) && archive.value == Pack(digest, t)
      case _ => live.Some? && Preserved(live.value)
    }

    /** Every step of the plan ends normally. */
    ghost predicate Faultless() {
      forall n :: faults(n).outcome.Done?
    }

    // Primitive steps: whatever happens, the effect is there or it is not.

    method Step() returns (applied: bool, o: Outcome)
      modifies this`step
      ensures o.Done? ==> applied
      ensures Faultless() ==> o.Done?
    {
      var f := faults(step);
      step := step + 1;
      applied, o := f.applied || f.outcome.Done?, f.outcome;
    }

    method SetLocation(l: Location) returns (o: Outcome)
      modifies this`step, this`location
      ensures location == Some(l) || location == old(location)
      ensures o.Done? ==> location == Some(l)
      ensures Faultless() ==> o.Done?
    {
      var applied;
      applied, o := Step();
      if applied { location := Some(l); }
    }

    method SetArchive(a: Option<Archive>) returns (o: Outcome)
      modifies this`step, this`archive
      ensures archive == a || archive == old(archive)
      ensures o.Done? ==> archive == a
      ensures Faultless() ==> o.Done?
    {
      var applied;
      applied, o := Step();
      if applied { archive := a; }
    }

    method SetChecksum(c: Option<string>) returns (o: Outcome)
      modifies this`step, this`checksum
      ensures checksum == c || checksum == old(checksum)
      ensures o.Done? ==> checksum == c
      ensures Faultless() ==> o.Done?
    {
      var applied;
      applied, o := Step();
      if applied { checksum := c; }
    }

    method SetLock(held: bool) returns (o: Outcome)
      modifies this`step, this`lock
      ensures o.Done? ==> lock == held
      ensures Faultless() ==> o.Done?
    {
      var applied;
      applied, o := Step();
      if applied { lock := held; }
    }

    /** A step without an effect on the files of the operation. */
    method Touch() returns (o: Outcome)
      modifies this`step
      ensures Faultless() ==> o.Done?
    {
      var applied;
      applied, o := Step();
    }

    /** `shutil.rmtree` on the live directory: one entry after the other. */
    method RemoveLive() returns (o: Outcome)
      requires live.Some?
      modifies this`step, this`live, this`lock
      ensures o.Done? ==> live == None
      ensures Faultless() ==> o.Done?
    {
      var rest := live.value;
      while rest != map[]
        invariant live == Some(rest)
        decreases |rest|
      {
        var p :| p in rest;
        var applied;
        applied, o := Step();
        if applied {
          assert |rest - {p}| < |rest|;
          rest := rest - {p};
          live := Some(rest);
        }
        if !o.Done? { return; }
      }
      o := SetLock(false);
      if !o.Done? { return; }
      var applied;
      applied, o := Step();
      if applied { live := None; }
    }

    method RemoveStaging() returns (o: Outcome)
      modifies this`step, this`staging
      ensures o.Done? ==> staging == None
      ensures Faultless() ==> o.Done?
    {
      var applied;
      applied, o := Step();
      if applied { staging := None; }
    }

    // ------------------------------------------------------------------ archive

    /** The `try` block of `archive_operation_workspace`. */
    method ArchiveSteps() returns (o: Outcome)
      requires Safe() && !(location.Some? && location.value.Archived?)
      modifies this
      ensures Safe()
      ensures o.Done? ==> location.Some? && location.value.Archived? && live == None
      ensures o.Done? ==> archive == Some(Pack(digest, old(live).value)) && checksum == Some(location.value.digest)
      ensures Faultless() ==> o.Done?
    {
      var a := Pack(digest, live.value);     // members, manifest and temporary file
      o := SetArchive(Some(a));              // os.replace
      if !o.Done? { return; }
      o := Touch();                          // chmod, digest, verifying read
      if !o.Done? { return; }
      o := SetChecksum(Some(fileDigest(a)));
      if !o.Done? { return; }
      o := SetLocation(Archived(fileDigest(a)));
      if !o.Done? { return; }
      o := Touch();                          // link to the latest operation
      if !o.Done? { return; }
      o := RemoveLive();
    }

    /** Its `except Exception` block; reading the index may fail as well. */
    method ArchiveHandler() returns (o: Outcome)
      requires Safe()
      modifies this
      ensures Safe() && !o.Done?
      ensures location == old(location) && live == old(live)
    {
      o := Touch();
      if !o.Done? { return; }
      if location == None || location == Some(Live) {
        o := SetArchive(None);
        if !o.Done? { return; }
        o := SetChecksum(None);
        if !o.Done? { return; }
      }
      o := Raised;
    }

    /** `archive_operation_workspace`; `eligible` stands for lifecycle and age. */
    method ArchiveOperation(eligible: bool) returns (r: Result)
      requires Safe()
      modifies this
      ensures Safe()
      ensures r.Refused? ==> location == old(location) && live == old(live) && archive == old(archive)
      ensures r.Refused? <==>
        old(location.Some? && location.value.Archived?) || !eligible || old(lock) || old(archive.Some?)
      ensures r.Succeeded? ==> location.Some? && location.value.Archived? && live == None
      ensures r.Succeeded? ==> archive == Some(Pack(digest, old(live).value)) && checksum == Some(location.value.digest)
      ensures Faultless() ==> !r.Stopped?
    {
      if (location.Some? && location.value.Archived?) || !eligible || lock || archive.Some? {
        return Refused;
      }
      var o := SetLock(true);
      if !o.Done? { return Stopped(o); }
      o := ArchiveSteps();
      if o.Done? { return Succeeded; }
      if o.Crashed? { return Stopped(Crashed); }
      if o.Raised? { o := ArchiveHandler(); }
      if !o.Crashed? && lock {
        var released := SetLock(false);
        if !released.Done? { o := released; }
      }
      r := Stopped(o);
    }

    // ------------------------------------------------------------------ restore

    /** The loop over the manifest: each file goes to the staging directory. */
    method WriteStaging(a: Archive) returns (o: Outcome)
      requires a.manifest.Keys == a.members.Keys
      modifies this`step, this`staging
      ensures o.Done? ==> staging == Some(Unpack(a))
      ensures Faultless() ==> o.Done?
    {
      var written: Tree, todo := map[], a.manifest.Keys;
      var applied;
      applied, o := Step();                  // mkdtemp
      if applied { staging := Some(written); }
      if !o.Done? { return; }
      while todo != {}
        invariant todo <= a.manifest.Keys && staging == Some(written) && o.Done?
        invariant written == Unpack(a) - todo
      {
        var p :| p in todo;
        applied, o := Step();
        if applied {
          written := written[p := File(a.members[p], a.manifest[p].mode % PERMISSION_BITS)];
          staging := Some(written);
        }
        if !o.Done? { return; }
        todo := todo - {p};
      }
      assert Unpack(a) - {} == Unpack(a);
    }

    /** `staging.rename(target)`: both directories change in one step. */
    method Publish() returns (o: Outcome)
      requires staging.Some?
      modifies this`step, this`staging, this`live
      ensures (live == old(live) && staging == old(staging)) || (live == old(staging) && staging == None)
      ensures o.Done? ==> live == old(staging)
      ensures Faultless() ==> o.Done?
    {
      var applied;
      applied, o := Step();
      if applied { live, staging := staging, None; }
    }

    lemma ArchivedCopy(a: Archive)
      requires Safe() && location.Some? && location.value.Archived? && archive == Some(a)
      ensures Verified(digest, a) && Unpack(a) == Masked(original)
    {
      var t :| Preserved(t) && a == Pack(digest, t);
      PackVerified(digest, t);
      MaskedTwice(original);
    }

    /** The `try` block of `restore_operation_archive`. */
    method RestoreSteps(a: Archive) returns (o: Outcome, published: bool)
      requires Safe() && location.Some? && location.value.Archived? && archive == Some(a)
      modifies this
      ensures Safe()
      ensures o.Done? ==> location == Some(Live) && live == Some(Masked(original)) && archive == None
      ensures published ==> live.Some?
      ensures Faultless() ==> o.Done?
    {
      ArchivedCopy(a);
      published := false;
      o := WriteStaging(a);
      if !o.Done? { return; }
      o := Touch();                          // metadata and execution of the staged copy
      if !o.Done? { return; }
      o := Publish();
      if !o.Done? { return; }
      published := true;
      o := SetLocation(Live);
      if !o.Done? { return; }
      o := SetArchive(None);
      if !o.Done? { return; }
      o := SetChecksum(None);
    }

    /** Its `except Exception` block. */
    method RestoreHandler(published: bool, was: Option<Location>) returns (o: Outcome)
      requires Safe() && was.Some? && was.value.Archived? && (published ==> live.Some?)
      modifies this
      ensures Safe() && !o.Done?
      ensures location == old(location) && archive == old(archive)
    {
      if published {
        o := Touch();
        if !o.Done? { return; }
        if location == was {
          o := RemoveLive();
          if !o.Done? { return; }
        }
      }
      o := Raised;
    }

    /** The archive that the location entry promises is there, unchanged, with its checksum file. */
    predicate Restorable()
      reads this
    {
      location.Some? && location.value.Archived? && checksum == Some(location.value.digest)
      && archive.Some? && fileDigest(archive.value) == location.value.digest && live.None?
    }

    /** `restore_operation_archive`. */
    method RestoreOperation() returns (r: Result)
      requires Safe()
      modifies this
      ensures Safe()
      ensures r.Refused? <==> !old(
        && location.Some? && location.value.Archived? && live.None?
        && archive.Some? && fileDigest(archive.value) == location.value.digest && checksum == Some(location.value.digest))
      ensures r.Refused? ==> location == old(location) && live == old(live) && archive == old(archive)
      ensures r.Succeeded? ==> location == Some(Live) && live == Some(Masked(original)) && archive == None
      ensures Faultless() ==> !r.Stopped?
    {
      if !Restorable() { return Refused; }
      var was := location;
      var o, published := RestoreSteps(archive.value);
      if o.Raised? { o := RestoreHandler(published, was); }
      if !o.Crashed? && staging.Some? {
        var removed := RemoveStaging();
        if !removed.Done? { o := removed; }
      }
      r := if o.Done? then Succeeded else Stopped(o);
    }

    /** An administrator may remove a left-over lock at any time. */
    method ClearLock()
      modifies this`lock
      ensures !lock
    {
      lock := false;
    }
  }

  datatype Command = DoArchive(eligible: bool) | DoRestore | DoClearLock

  /** Any number of commands under any fault plan leaves the operation recoverable. */
  method Campaign(s: Storage, commands: seq<Command>)
    requires s.Safe()
    modifies s
    ensures s.Safe()
  {
    for i := 0 to |commands|
      invariant s.Safe()
    {
      match commands[i] {
        case DoArchive(eligible) => var r := s.ArchiveOperation(eligible);
        case DoRestore => var r := s.RestoreOperation();
        case DoClearLock => s.ClearLock();
      }
    }
  }

  /** Without faults, archiving and restoring gives the tree back, less the high mode bits. */
  method ArchiveThenRestore(s: Storage)
    requires s.Safe() && s.Faultless() && s.live == Some(s.original) && !s.lock && s.archive == None
    requires s.location == None || s.location == Some(Live)
    modifies s
    ensures s.location == Some(Live) && s.live == Some(Masked(s.original))
    ensures s.live == old(s.live) <==> PlainModes(s.original)
  {
    var archived := s.ArchiveOperation(true);
    var restored := s.RestoreOperation();
    MaskedTwice(s.original);
  }
}
