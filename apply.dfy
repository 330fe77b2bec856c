/**
  `CompResult` and `synchronise` (synch_to_mp3.py lines 250-381), with every
  filesystem, encoder and tag-library call replaced by an action in a trace.
  A run is the trace of the actions performed, and the failure that stopped
  it, if any: an exception ends `synchronise` where it is raised.

  Paths are keys relative to the two base directories: an action names the
  key (and the extension, where the file name is the key plus an extension),
  and the side it touches follows from the action.
 */
module Sync {
  import opened Wrappers
  import opened Text
  import opened Settings
  import opened Tags
  import opened Scanner
  import opened Diff

  datatype Action =
    /** `os.makedirs` of a directory on the right. */
    | MakeDir(key: string)
    /** `shutil.copy2` of another file from the left to the same key on the right. */
    | CopyFile(key: string)
    /** `copy_tag_dict_to_mp3` of the left tags onto the right file `key + ".mp3"`. */
    | WriteTags(key: string, tags: TagDict)
    /** `flac_to_mp3` of the left file `key + srcExt` to the right file `key + ".mp3"`; without tags they are read from the flac file. */
    | Encode(key: string, srcExt: string, tagDict: Option<TagDict>)
    /** `shutil.copy2` of the left file `key + srcExt` to the right file `key + ".mp3"`. */
    | CopyMusic(key: string, srcExt: string)
    /** `os.remove` of the right audio file `key + ext`. */
    | DeleteMusic(key: string, ext: string)
    /** `os.remove` of another file on the right. */
    | DeleteFile(key: string)
    /** `os.rmdir` of a directory on the right. */
    | RemoveDir(key: string)

  datatype Failure =
    /** `raise Exception('What is this thing?')`: an audio entry that is neither flac nor mp3. */
    | UnknownKind(key: string, ext: string)
    /** `assert ext_right == '.mp3'`. */
    | NotMp3Target(key: string, ext: string)
    /** `id3_tags_as_dict` raised while reading the tags of an mp3 file. */
    | TagReadFailed(key: string, error: TagError)

  datatype Run = Run(actions: seq<Action>, failure: Option<Failure>)

  /**
    The tags of the files, which the script reads from disk: the field dict of
    a left flac file (`FLAC.tags.as_dict()`), and `id3_tags_as_dict` of a left
    or right mp3 file, which can raise.
   */
  datatype TagSource = TagSource(
    flacLeft: string -> TagDict,
    id3Left: string -> Result<TagDict, TagError>,
    id3Right: string -> Result<TagDict, TagError>)

  // ---------------------------------------------------------------------------
  // Runs

  /** A sequence of steps carried out until the first that fails. */
  function RunSteps(steps: seq<Result<Action, Failure>>): Run
  {
    if steps == [] then Run([], None)
    else
      var r := RunSteps(steps[..|steps| - 1]);
      if r.failure.Some? then r
      else match steps[|steps| - 1]
        case Ok(a) => Run(r.actions + [a], None)
        case Err(f) => Run(r.actions, Some(f))
  }

  /** The actions of steps that all succeed. */
  function Values(steps: seq<Result<Action, Failure>>): (r: seq<Action>)
    requires forall i | 0 <= i < |steps| :: steps[i].Ok?
    ensures |r| == |steps| && forall i | 0 <= i < |steps| :: r[i] == steps[i].value
  {
    seq(|steps|, i requires 0 <= i < |steps| => steps[i].value)
  }

  /** A run of steps completes exactly when every step succeeds, and then performs them all. */
  lemma {:induction false} RunStepsAllOk(steps: seq<Result<Action, Failure>>)
    ensures RunSteps(steps).failure.None? <==> forall i | 0 <= i < |steps| :: steps[i].Ok?
    ensures RunSteps(steps).failure.None? ==> RunSteps(steps).actions == Values(steps)
  {
    if steps != [] {
      var init := steps[..|steps| - 1];
      RunStepsAllOk(init);
      if RunSteps(init).failure.None? && steps[|steps| - 1].Ok? {
        assert Values(steps) == Values(init) + [steps[|steps| - 1].value];
      } else if RunSteps(init).failure.Some? {
        var i :| 0 <= i < |init| && !init[i].Ok?;
        assert steps[i] == init[i];
      }
    }
  }

  /** A failed run of steps stops at its first failing step, after performing every step before it. */
  lemma {:induction false} RunStepsFirstErr(steps: seq<Result<Action, Failure>>)
    ensures RunSteps(steps).failure.Some? ==>
              exists i | 0 <= i < |steps| :: steps[i].Err? && (forall j | 0 <= j < i :: steps[j].Ok?) &&
                RunSteps(steps).failure == Some(steps[i].error) && RunSteps(steps).actions == Values(steps[..i])
  {
    if steps != [] {
      var init := steps[..|steps| - 1];
      var r := RunSteps(init);
      if r.failure.Some? {
        RunStepsFirstErr(init);
        var i :| 0 <= i < |init| && init[i].Err? && (forall j | 0 <= j < i :: init[j].Ok?) &&
                 r.failure == Some(init[i].error) && r.actions == Values(init[..i]);
        assert steps[..i] == init[..i];
        assert steps[i] == init[i];
      } else if steps[|steps| - 1].Err? {
        RunStepsAllOk(init);
        assert steps[..|steps| - 1] == init;
      }
    }
  }

  /**
    A run of steps performs every step before the first that fails, and
    reports that one; when none fails it performs them all.
   */
  lemma RunStepsMeaning(steps: seq<Result<Action, Failure>>)
    ensures RunSteps(steps).failure.None? <==> forall i | 0 <= i < |steps| :: steps[i].Ok?
    ensures RunSteps(steps).failure.None? ==> RunSteps(steps).actions == Values(steps)
    ensures RunSteps(steps).failure.Some? ==>
              exists i | 0 <= i < |steps| :: steps[i].Err? && (forall j | 0 <= j < i :: steps[j].Ok?) &&
                RunSteps(steps).failure == Some(steps[i].error) && RunSteps(steps).actions == Values(steps[..i])
  {
    RunStepsAllOk(steps);
    RunStepsFirstErr(steps);
  }

  /** One more step after a prefix that has not failed: performed if it succeeds, reported if it fails. */
  lemma RunStepsNext(steps: seq<Result<Action, Failure>>, i: nat, acts: seq<Action>)
    requires i < |steps| && RunSteps(steps[..i]) == Run(acts, None)
    ensures RunSteps(steps[..i + 1]) ==
            match steps[i]
            case Ok(a) => Run(acts + [a], None)
            case Err(f) => Run(acts, Some(f))
  {
    assert steps[..i + 1][..i] == steps[..i];
  }

  /** Once a prefix of the steps has failed, the later steps do not matter. */
  lemma {:induction false} RunStepsStopped(steps: seq<Result<Action, Failure>>, n: nat)
    requires n <= |steps| && RunSteps(steps[..n]).failure.Some?
    ensures RunSteps(steps) == RunSteps(steps[..n])
    decreases |steps| - n
  {
    if n < |steps| {
      assert steps[..n + 1][..n] == steps[..n];
      RunStepsStopped(steps, n + 1);
    } else {
      assert steps[..n] == steps;
    }
  }

  /** `synchronise` raises out of a stage and runs no later stage. */
  function Then(a: Run, b: Run): Run
  {
    if a.failure.Some? then a else Run(a.actions + b.actions, b.failure)
  }

  // ---------------------------------------------------------------------------
  // The stages

  /** `_copy_dirs`: every directory only the left side has, in the order the left scan found them. */
  function MakeDirActions(ds: seq<(string, nat)>): (r: seq<Action>)
    ensures |r| == |ds| && forall i | 0 <= i < |ds| :: r[i] == MakeDir(ds[i].0)
  {
    seq(|ds|, i requires 0 <= i < |ds| => MakeDir(ds[i].0))
  }

  /** `_copy_files`. */
  function CopyFileActions(keys: seq<string>): (r: seq<Action>)
    ensures |r| == |keys| && forall i | 0 <= i < |keys| :: r[i] == CopyFile(keys[i])
  {
    seq(|keys|, i requires 0 <= i < |keys| => CopyFile(keys[i]))
  }

  /** The tags of a left audio file, read the way its extension says. */
  function ReadLeftTags(tags: TagSource, x: string, left: Audio): Result<TagDict, Failure>
  {
    if Lower(left.ext) == ".flac" then Ok(tags.flacLeft(x))
    else if Lower(left.ext) == ".mp3" then
      match tags.id3Left(x)
      case Ok(d) => Ok(d)
      case Err(e) => Err(TagReadFailed(x, e))
    else Err(UnknownKind(x, left.ext))
  }

  /** The tags of a right audio file, which must be named with ".mp3". */
  function ReadRightTags(tags: TagSource, x: string, right: Audio): Result<TagDict, Failure>
  {
    if right.ext != ".mp3" then Err(NotMp3Target(x, right.ext))
    else
      match tags.id3Right(x)
      case Ok(d) => Ok(d)
      case Err(e) => Err(TagReadFailed(x, e))
  }

  /**
    One iteration of `_copy_music_changed`: the left tags are read first, then
    the right extension is checked and the right tags read; different tags are
    copied onto the right file, equal tags mean the audio itself is renewed.
   */
  function ChangedAction(tags: TagSource, x: string, left: Audio, right: Audio): Result<Action, Failure>
  {
    var tl :- ReadLeftTags(tags, x, left);
    var tr :- ReadRightTags(tags, x, right);
    if tl != tr then Ok(WriteTags(x, tl))
    else if Lower(left.ext) == ".flac" then Ok(Encode(x, left.ext, if tl == map[] then None else Some(tl)))
    else Ok(CopyMusic(x, left.ext))
  }

  /** One iteration of `_copy_music_leftonly`: flac files are encoded, mp3 files copied. */
  function LeftOnlyAction(x: string, left: Audio): Result<Action, Failure>
  {
    if Lower(left.ext) == ".flac" then Ok(Encode(x, left.ext, None))
    else if Lower(left.ext) == ".mp3" then Ok(CopyMusic(x, left.ext))
    else Err(UnknownKind(x, left.ext))
  }

  function ChangedSteps(tags: TagSource, keys: seq<string>, musicLeft: map<string, Audio>, musicRight: map<string, Audio>)
    : (r: seq<Result<Action, Failure>>)
    requires forall x | x in keys :: x in musicLeft && x in musicRight
    ensures |r| == |keys| && forall i | 0 <= i < |keys| :: r[i] == ChangedAction(tags, keys[i], musicLeft[keys[i]], musicRight[keys[i]])
  {
    seq(|keys|, i requires 0 <= i < |keys| => ChangedAction(tags, keys[i], musicLeft[keys[i]], musicRight[keys[i]]))
  }

  function LeftOnlySteps(keys: seq<string>, musicLeft: map<string, Audio>): (r: seq<Result<Action, Failure>>)
    requires forall x | x in keys :: x in musicLeft
    ensures |r| == |keys| && forall i | 0 <= i < |keys| :: r[i] == LeftOnlyAction(keys[i], musicLeft[keys[i]])
  {
    seq(|keys|, i requires 0 <= i < |keys| => LeftOnlyAction(keys[i], musicLeft[keys[i]]))
  }

  /** `order` visits every element of `s` exactly once: how Python walks a set or a dict. */
  ghost predicate IsOrderOf(order: seq<string>, s: set<string>)
  {
    Distinct(order) && forall x :: x in order <==> x in s
  }

  /** `_remove_music`, in the order the dict is walked. */
  function DeleteMusicActions(order: seq<string>, toDelete: map<string, Audio>): (r: seq<Action>)
    requires forall x | x in order :: x in toDelete
    ensures |r| == |order| && forall i | 0 <= i < |order| :: r[i] == DeleteMusic(order[i], toDelete[order[i]].ext)
  {
    seq(|order|, i requires 0 <= i < |order| => DeleteMusic(order[i], toDelete[order[i]].ext))
  }

  /** `_remove_files`, in the order the set is walked. */
  function DeleteFileActions(order: seq<string>): (r: seq<Action>)
    ensures |r| == |order| && forall i | 0 <= i < |order| :: r[i] == DeleteFile(order[i])
  {
    seq(|order|, i requires 0 <= i < |order| => DeleteFile(order[i]))
  }

  /** `_remove_dirs`: the directories only the right side has, last found first. */
  function RemoveDirActions(ds: seq<(string, nat)>): (r: seq<Action>)
    ensures |r| == |ds| && forall i | 0 <= i < |ds| :: r[i] == RemoveDir(ds[|ds| - 1 - i].0)
  {
    seq(|ds|, i requires 0 <= i < |ds| => RemoveDir(ds[|ds| - 1 - i].0))
  }

  // ---------------------------------------------------------------------------
  // CompResult

  /** The comparison of a left and a right tree, computed once, and the synchronisation it drives. */
  class CompResult {
    const musicLeft: map<string, Audio>
    const restLeft: map<string, int>
    const dirsLeft: seq<(string, nat)>
    const musicRight: map<string, Audio>
    const restRight: map<string, int>
    const dirsRight: seq<(string, nat)>
    const dirsToCopy: seq<(string, nat)>
    const dirsToDelete: seq<(string, nat)>
    const restToCopy: seq<string>
    const restToDelete: set<string>
    const musicLeftOnly: seq<string>
    const musicChanged: seq<string>
    const musicToDelete: map<string, Audio>

    /** How the seven collections derive from the two scans. */
    ghost predicate Valid()
    {
      && dirsToCopy == DirsMissingFrom(dirsLeft, dirsRight)
      && dirsToDelete == DirsMissingFrom(dirsRight, dirsLeft)
      && restToDelete == restRight.Keys - restLeft.Keys
      && (forall x :: x in restToCopy <==> x in restLeft && (x !in restRight || restLeft[x] != restRight[x]))
      && Distinct(restToCopy)
      && musicToDelete == MusicMissingFrom(musicRight, musicLeft)
      && (forall x :: x in musicLeftOnly <==> x in musicLeft && x !in musicRight)
      && (forall x :: x in musicChanged <==> x in musicLeft && x in musicRight && musicLeft[x].lastMod > musicRight[x].lastMod)
      && Distinct(musicLeftOnly) && Distinct(musicChanged)
    }

    /** The tables are those of scanning the two trees from depth 0. */
    ghost predicate ScannedFrom(cfg: Config, left: seq<Entry>, right: seq<Entry>)
    {
      && Snapshot(musicLeft, restLeft, dirsLeft) == Scan(cfg, left, 0)
      && Snapshot(musicRight, restRight, dirsRight) == Scan(cfg, right, 0)
    }

    /** `CompResult.__init__`: scan both trees, then compare them. */
    constructor (cfg: Config, left: seq<Entry>, right: seq<Entry>)
      ensures Valid() && ScannedFrom(cfg, left, right)
    {
      var ml, rl, dl := GetFilesDirs(cfg, left, 0);
      var mr, rr, dr := GetFilesDirs(cfg, right, 0);
      musicLeft, restLeft, dirsLeft := ml, rl, dl;
      musicRight, restRight, dirsRight := mr, rr, dr;
      dirsToCopy := DirsMissingFrom(dl, dr);
      dirsToDelete := DirsMissingFrom(dr, dl);
      var toCopy, toDelete := CompareFiles(rl, rr);
      restToCopy, restToDelete := toCopy, toDelete;
      var leftOnly, changed, musicGone := CompareMusic(ml, mr);
      musicLeftOnly, musicChanged, musicToDelete := leftOnly, changed, musicGone;
    }

    /**
      What `synchronise` does, stage by stage, given the orders in which the
      dict `music_to_delete` and the set `rest_to_delete` are walked.
     */
    function Plan(tags: TagSource, musicOrder: seq<string>, fileOrder: seq<string>): Run
      requires Valid()
      requires IsOrderOf(musicOrder, musicToDelete.Keys)
    {
      Then(Run(MakeDirActions(dirsToCopy), None),
      Then(Run(CopyFileActions(restToCopy), None),
      Then(RunSteps(ChangedSteps(tags, musicChanged, musicLeft, musicRight)),
      Then(RunSteps(LeftOnlySteps(musicLeftOnly, musicLeft)),
      Then(Run(DeleteMusicActions(musicOrder, musicToDelete), None),
      Then(Run(DeleteFileActions(fileOrder), None),
           Run(RemoveDirActions(dirsToDelete), None)))))))
    }

    method CopyDirs() returns (acts: seq<Action>)
      ensures acts == MakeDirActions(dirsToCopy)
    {
      acts := [];
      for i := 0 to |dirsToCopy|
        invariant acts == MakeDirActions(dirsToCopy[..i])
      {
        acts := acts + [MakeDir(dirsToCopy[i].0)];
      }
      assert dirsToCopy[..|dirsToCopy|] == dirsToCopy;
    }

    method CopyFiles() returns (acts: seq<Action>)
      ensures acts == CopyFileActions(restToCopy)
    {
      acts := [];
      for i := 0 to |restToCopy|
        invariant acts == CopyFileActions(restToCopy[..i])
      {
        acts := acts + [CopyFile(restToCopy[i])];
      }
      assert restToCopy[..|restToCopy|] == restToCopy;
    }

    method CopyMusicChanged(tags: TagSource) returns (run: Run)
      requires Valid()
      ensures run == RunSteps(ChangedSteps(tags, musicChanged, musicLeft, musicRight))
    {
      ghost var steps := ChangedSteps(tags, musicChanged, musicLeft, musicRight);
      var acts := [];
      for i := 0 to |musicChanged|
        invariant RunSteps(steps[..i]) == Run(acts, None)
      {
        var x := musicChanged[i];
        var step := ChangedAction(tags, x, musicLeft[x], musicRight[x]);
        RunStepsNext(steps, i, acts);
        if step.Err? {
          RunStepsStopped(steps, i + 1);
          return Run(acts, Some(step.error));
        }
        acts := acts + [step.value];
      }
      assert steps[..|musicChanged|] == steps;
      run := Run(acts, None);
    }

    method CopyMusicLeftOnly() returns (run: Run)
      requires Valid()
      ensures run == RunSteps(LeftOnlySteps(musicLeftOnly, musicLeft))
    {
      ghost var steps := LeftOnlySteps(musicLeftOnly, musicLeft);
      var acts := [];
      for i := 0 to |musicLeftOnly|
        invariant RunSteps(steps[..i]) == Run(acts, None)
      {
        var x := musicLeftOnly[i];
        var step := LeftOnlyAction(x, musicLeft[x]);
        RunStepsNext(steps, i, acts);
        if step.Err? {
          RunStepsStopped(steps, i + 1);
          return Run(acts, Some(step.error));
        }
        acts := acts + [step.value];
      }
      assert steps[..|musicLeftOnly|] == steps;
      run := Run(acts, None);
    }

    method RemoveMusic() returns (acts: seq<Action>, ghost order: seq<string>)
      ensures IsOrderOf(order, musicToDelete.Keys)
      ensures acts == DeleteMusicActions(order, musicToDelete)
    {
      acts, order := [], [];
      var todo := musicToDelete.Keys;
      while todo != {}
        invariant todo <= musicToDelete.Keys
        invariant Distinct(order) && forall x :: x in order <==> x in musicToDelete && x !in todo
        invariant acts == DeleteMusicActions(order, musicToDelete)
        decreases todo
      {
        var k :| k in todo;
        acts := acts + [DeleteMusic(k, musicToDelete[k].ext)];
        order := order + [k];
        todo := todo - {k};
      }
    }

    method RemoveFiles() returns (acts: seq<Action>, ghost order: seq<string>)
      ensures IsOrderOf(order, restToDelete)
      ensures acts == DeleteFileActions(order)
    {
      acts, order := [], [];
      var todo := restToDelete;
      while todo != {}
        invariant todo <= restToDelete
        invariant Distinct(order) && forall x :: x in order <==> x in restToDelete && x !in todo
        invariant acts == DeleteFileActions(order)
        decreases todo
      {
        var f :| f in todo;
        acts := acts + [DeleteFile(f)];
        order := order + [f];
        todo := todo - {f};
      }
    }

    method RemoveDirs() returns (acts: seq<Action>)
      ensures acts == RemoveDirActions(dirsToDelete)
    {
      acts := [];
      var i := |dirsToDelete|;
      while i > 0
        invariant 0 <= i <= |dirsToDelete|
        invariant acts == RemoveDirActions(dirsToDelete[i..])
      {
        i := i - 1;
        acts := acts + [RemoveDir(dirsToDelete[i].0)];
      }
    }

    /** `synchronise`: the seven stages in their fixed order, stopping at the first exception. */
    method Synchronise(tags: TagSource) returns (run: Run, ghost musicOrder: seq<string>, ghost fileOrder: seq<string>)
      requires Valid()
      ensures IsOrderOf(musicOrder, musicToDelete.Keys) && IsOrderOf(fileOrder, restToDelete)
      ensures run == Plan(tags, musicOrder, fileOrder)
    {
      var made := CopyDirs();
      var copied := CopyFiles();
      var changed := CopyMusicChanged(tags);
      var leftOnly := CopyMusicLeftOnly();
      var deletedMusic;
      deletedMusic, musicOrder := RemoveMusic();
      var deletedFiles;
      deletedFiles, fileOrder := RemoveFiles();
      var removed := RemoveDirs();
      run := Then(Run(made, None),
             Then(Run(copied, None),
             Then(changed,
             Then(leftOnly,
             Then(Run(deletedMusic, None),
             Then(Run(deletedFiles, None),
                  Run(removed, None)))))));
    }
  }
}
