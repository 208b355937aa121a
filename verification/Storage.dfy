/** `write_immutable_bundle` and `publish_attempt_artifact` as code, for a caller nobody interferes with. */
module Storage {
  import opened Basics
  import opened Bundles

  // Where an injected or real failure can strike.
  datatype Stage = AtStaging | AtPayload(index: nat) | AtManifest | AtLock | AtRename | AtSync

  datatype Written = Complete | DestinationExists | InvalidFiles | WriteFailed

  datatype Status = Published | Reused

  datatype Publication = Publication(status: Status, manifestSha256: Checksum)

  datatype ArtifactError = Collision | Incomplete | ManifestMismatch | PublicationFailed

  // No stage fails.
  ghost predicate Reliable(fails: Stage -> bool) { forall s :: !fails(s) }

  /* ---------- what one call comes to ---------- */

  predicate StagingFails(files: seq<File>, fails: Stage -> bool) {
    fails(AtStaging) || (exists k :: 0 <= k < |files| && fails(AtPayload(k))) || fails(AtManifest)
  }

  function WriteOutcome(files: seq<File>, fails: Stage -> bool, target: Option<Dir>, lock: bool): Written {
    if files == [] || !ValidFiles(files) then InvalidFiles
    else if StagingFails(files, fails) then WriteFailed
    else if lock then DestinationExists
    else if fails(AtLock) then WriteFailed
    else if target.Some? then DestinationExists
    else if fails(AtRename) || fails(AtSync) then WriteFailed
    else Complete
  }

  // The rename happens; only the sync after it may still fail.
  predicate Renames(files: seq<File>, fails: Stage -> bool, target: Option<Dir>, lock: bool) {
    WriteOutcome(files, s => s != AtSync && fails(s), target, lock).Complete?
  }

  // How an existing directory differs from the bundle, by the first check that notices.
  function VerifyFault(files: seq<File>, dir: Dir): Option<ArtifactError> {
    if dir == Bundle(files) then None
    else if MANIFEST !in dir then Some(Incomplete)
    else if dir.Keys != Bundle(files).Keys then Some(Collision)
    else if dir[MANIFEST] != Manifest(files) then Some(ManifestMismatch)
    else Some(Collision)
  }

  function PublishOutcome(files: seq<File>, fails: Stage -> bool, target: Option<Dir>, lock: bool): Result<Publication, ArtifactError> {
    match target
    case Some(dir) =>
      (match VerifyFault(files, dir)
       case Some(e) => Err(e)
       case None => Ok(Publication(Reused, Hash(Manifest(files)))))
    case None =>
      (match WriteOutcome(files, fails, target, lock)
       case Complete => Ok(Publication(Published, Hash(Manifest(files))))
       case DestinationExists => Err(Collision)
       case _ => Err(PublicationFailed))
  }

  /** The parent directory of one target: the target, its staging sibling and its lock file. */
  class Parent {
    var target: Option<Dir>
    var staging: Option<Dir>
    var lock: bool

    constructor (target: Option<Dir>, lock: bool)
      ensures this.target == target && this.staging == None && this.lock == lock
    {
      this.target, this.staging, this.lock := target, None, lock;
    }

    /** Stage every payload, then the manifest, then lock, check and rename; clean up on failure. */
    method WriteImmutableBundle(files: seq<File>, fails: Stage -> bool) returns (r: Written)
      requires staging == None
      modifies this
      ensures staging == None && lock == old(lock)
      ensures r == WriteOutcome(files, fails, old(target), old(lock))
      ensures target == if Renames(files, fails, old(target), old(lock)) then Some(Bundle(files)) else old(target)
      ensures r == Complete ==> old(target) == None && !old(lock) && target == Some(Bundle(files))
      ensures r == DestinationExists ==> old(target).Some? || old(lock)
      ensures target != old(target) ==> old(target) == None && (r == Complete || (r == WriteFailed && fails(AtSync)))
      ensures Reliable(fails) && files != [] && ValidFiles(files) ==>
                r == if old(target) == None && !old(lock) then Complete else DestinationExists
      ensures r == InvalidFiles <==>
              files == [] || (exists i, j :: 0 <= i < j < |files| && files[i].name == files[j].name) ||
              exists i :: 0 <= i < |files| && files[i].name.text == Lit("manifest.json")
      ensures r == WriteFailed ==> !Reliable(fails)
    {
      InvalidIs(files);
      hide Bundle, Manifest, MANIFEST, ValidFiles, Contents, VerifyFault, PublishOutcome;
      if files == [] || !ValidFiles(files) { return InvalidFiles; }
      if fails(AtStaging) { return WriteFailed; }
      staging := Some(map[]);
      var k := 0;
      StartContents(files);
      while k < |files|
        invariant 0 <= k <= |files|
        invariant forall i :: 0 <= i < k ==> !fails(AtPayload(i))
        invariant staging == Some(Contents(files[..k]))
        invariant target == old(target) && lock == old(lock)
      {
        if fails(AtPayload(k)) {
          staging := None;
          return WriteFailed;
        }
        NextContents(files, k);
        staging := Some(staging.value[files[k].name := files[k].content]);
        k := k + 1;
      }
      if fails(AtManifest) {
        staging := None;
        return WriteFailed;
      }
      FullBundle(files);
      staging := Some(staging.value[MANIFEST := Manifest(files)]);
      if lock {
        staging := None;
        return DestinationExists;
      }
      lock := true;
      if fails(AtLock) || target.Some? || fails(AtRename) {
        r := if fails(AtLock) || target == None then WriteFailed else DestinationExists;
        staging, lock := None, false;
        return;
      }
      target, staging := staging, None;
      lock := false;
      return if fails(AtSync) then WriteFailed else Complete;
    }

    /** `_verify_existing_bundle`: names, then the manifest, then every payload byte. */
    method VerifyExisting(files: seq<File>) returns (e: Option<ArtifactError>)
      requires target.Some? && ValidFiles(files)
      ensures e == VerifyFault(files, target.value)
      ensures e == None <==> target == Some(Bundle(files))
      ensures e == Some(Incomplete) <==> MANIFEST !in target.value
      ensures e == Some(ManifestMismatch) <==>
              MANIFEST in target.value && target.value.Keys == Bundle(files).Keys && target.value[MANIFEST] != Manifest(files)
      ensures e == Some(Collision) <==>
              MANIFEST in target.value &&
              (target.value.Keys != Bundle(files).Keys || (target.value[MANIFEST] == Manifest(files) && target.value != Bundle(files)))
    {
      hide Manifest, MANIFEST, Contents;
      BundleHasManifest(files);
      var actual, expected := target.value, Bundle(files);
      if actual.Keys != expected.Keys {
        return Some(if MANIFEST in actual then Collision else Incomplete);
      }
      if actual[MANIFEST] != expected[MANIFEST] { return Some(ManifestMismatch); }
      var k := 0;
      while k < |files|
        invariant 0 <= k <= |files|
        invariant forall i :: 0 <= i < k ==> files[i].name in actual && actual[files[i].name] == files[i].content
      {
        FileInBundle(files, k);
        if actual[files[k].name] != files[k].content { return Some(Collision); }
        k := k + 1;
      }
      AllFilesMatch(files, actual);
      return None;
    }

    /** `publish_attempt_artifact` once its inputs are accepted: an answer means the target holds these bytes. */
    method PublishAttempt(files: seq<File>, fails: Stage -> bool) returns (r: Result<Publication, ArtifactError>)
      requires staging == None && files != [] && ValidFiles(files)
      modifies this
      ensures staging == None && lock == old(lock)
      ensures r == PublishOutcome(files, fails, old(target), old(lock))
      ensures target == if Renames(files, fails, old(target), old(lock)) then Some(Bundle(files)) else old(target)
      ensures r.Ok? ==> target == Some(Bundle(files)) && r.value.manifestSha256 == Hash(Manifest(files))
      ensures r.Ok? ==> (r.value.status.Reused? <==> old(target).Some?)
      ensures old(target).Some? ==> target == old(target) && (r.Ok? <==> old(target) == Some(Bundle(files)))
      ensures Reliable(fails) && old(target) == None ==> (r.Ok? <==> !old(lock))
      ensures r == Err(PublicationFailed) ==> old(target) == None && !Reliable(fails)
      ensures old(target) == None && r.Err? ==> r.error == Collision || r.error == PublicationFailed
    {
      hide Bundle, Manifest, MANIFEST, ValidFiles, Hash, StagingFails;
      if target.Some? {
        hide VerifyFault;
        var e := VerifyExisting(files);
        if e.Some? { return Err(e.value); }
        return Ok(Publication(Reused, Hash(Manifest(files))));
      }
      var written := WriteImmutableBundle(files, fails);
      if written.DestinationExists? {
        return Err(Collision);
      }
      if !written.Complete? { return Err(PublicationFailed); }
      BundleHasManifest(files);
      return Ok(Publication(Published, Hash(target.value[MANIFEST])));
    }

    /** Publishing twice: the second call reuses the first's bundle if and only if it brings the same one. */
    method PublishTwice(first: seq<File>, second: seq<File>) returns (a: Result<Publication, ArtifactError>, b: Result<Publication, ArtifactError>)
      requires staging == None && target == None && !lock
      requires first != [] && ValidFiles(first) && second != [] && ValidFiles(second)
      modifies this
      ensures a.Ok? && a.value.status.Published? && target == Some(Bundle(first))
      ensures b.Ok? <==> Bundle(second) == Bundle(first)
      ensures b.Ok? ==> b.value.status.Reused? && b.value.manifestSha256 == a.value.manifestSha256
    {
      hide Bundle, Manifest, MANIFEST, ValidFiles, Hash;
      a := PublishAttempt(first, s => false);
      b := PublishAttempt(second, s => false);
      BundleHasManifest(first);
      BundleHasManifest(second);
    }
  }

  lemma InvalidIs(files: seq<File>)
    ensures ValidFiles(files) <==>
            !(exists i, j :: 0 <= i < j < |files| && files[i].name == files[j].name) &&
            !exists i :: 0 <= i < |files| && files[i].name.text == Lit("manifest.json")
  {
    assert MANIFEST == Name(Lit("manifest.json"));
    hide Lit;
  }

  lemma StartContents(files: seq<File>)
    ensures Contents(files[..0]) == map[]
  {
  }

  lemma NextContents(files: seq<File>, k: nat)
    requires k < |files|
    ensures Contents(files[..k + 1]) == Contents(files[..k])[files[k].name := files[k].content]
  {
    assert files[..k + 1][..k] == files[..k];
  }

  lemma FullBundle(files: seq<File>)
    ensures Bundle(files) == Contents(files[..|files|])[MANIFEST := Manifest(files)]
  {
    hide Contents, MANIFEST, Manifest;
    assert files[..|files|] == files;
  }

  lemma FileInBundle(files: seq<File>, k: int)
    requires 0 <= k < |files| && ValidFiles(files)
    ensures files[k].name in Bundle(files) && Bundle(files)[files[k].name] == files[k].content
  {
    hide MANIFEST, Manifest, Contents;
    ContentsHas(files, files[k]);
    assert files[k] in files;
  }

  lemma AllFilesMatch(files: seq<File>, actual: Dir)
    requires ValidFiles(files) && actual.Keys == Bundle(files).Keys && actual[MANIFEST] == Manifest(files)
    requires forall i :: 0 <= i < |files| ==> files[i].name in actual && actual[files[i].name] == files[i].content
    ensures actual == Bundle(files)
  {
    hide Contents, MANIFEST, Manifest;
    forall n | n in actual ensures actual[n] == Bundle(files)[n] {
      if n != MANIFEST {
        ContentsHas(files, File(n, actual[n]));
        assert exists i :: 0 <= i < |files| && files[i].name == n;
        var i :| 0 <= i < |files| && files[i].name == n;
        ContentsHas(files, files[i]);
        assert files[i] in files;
      }
    }
  }
}
