/**
  What a synchronisation run does, stated against the table at the head of
  the script (synch_to_mp3.py lines 5-15): for each audio file and each other
  file, the run performs exactly the action the table names for its kind and
  its situation, and nothing else. Also: the stages come in their fixed order,
  a directory is removed only after everything the scan saw below it, and the
  right side ends up with the left side's keys.
 */
module Decisions {
  import opened Wrappers
  import opened Text
  import opened Settings
  import opened Tags
  import opened Scanner
  import opened Diff
  import opened Sync

  // ---------------------------------------------------------------------------
  // Stage order

  /** The stage of `synchronise` that performs an action. */
  function Stage(a: Action): nat
  {
    match a
    case MakeDir(_) => 0
    case CopyFile(_) => 1
    case WriteTags(_, _) => 2
    case Encode(_, _, _) => 2
    case CopyMusic(_, _) => 2
    case DeleteMusic(_, _) => 3
    case DeleteFile(_) => 4
    case RemoveDir(_) => 5
  }

  predicate StagesInOrder(acts: seq<Action>)
  {
    forall i, j | 0 <= i < j < |acts| :: Stage(acts[i]) <= Stage(acts[j])
  }

  /** Every action of a run of steps is the outcome of one of the steps. */
  lemma RunStepsActions(steps: seq<Result<Action, Failure>>, a: Action)
    requires a in RunSteps(steps).actions
    ensures Ok(a) in steps
  {
    RunStepsMeaning(steps);
    var acts := RunSteps(steps).actions;
    var k :| 0 <= k < |acts| && acts[k] == a;
    if RunSteps(steps).failure.Some? {
      var i :| 0 <= i < |steps| && steps[i].Err? && (forall j | 0 <= j < i :: steps[j].Ok?) &&
               RunSteps(steps).failure == Some(steps[i].error) && acts == Values(steps[..i]);
      assert steps[k] == Ok(a);
    } else {
      assert steps[k] == Ok(a);
    }
  }

  /** Whatever part of `_copy_music_changed` runs renews audio files and does nothing else. */
  lemma ChangedStageActions(tags: TagSource, keys: seq<string>, musicLeft: map<string, Audio>, musicRight: map<string, Audio>)
    requires forall x | x in keys :: x in musicLeft && x in musicRight
    ensures forall a | a in RunSteps(ChangedSteps(tags, keys, musicLeft, musicRight)).actions :: Stage(a) == 2
  {
    forall a | a in RunSteps(ChangedSteps(tags, keys, musicLeft, musicRight)).actions
      ensures Stage(a) == 2
    {
      RunStepsActions(ChangedSteps(tags, keys, musicLeft, musicRight), a);
    }
  }

  /** Whatever part of `_copy_music_leftonly` runs renews audio files and does nothing else. */
  lemma LeftOnlyStageActions(keys: seq<string>, musicLeft: map<string, Audio>)
    requires forall x | x in keys :: x in musicLeft
    ensures forall a | a in RunSteps(LeftOnlySteps(keys, musicLeft)).actions :: Stage(a) == 2
  {
    forall a | a in RunSteps(LeftOnlySteps(keys, musicLeft)).actions
      ensures Stage(a) == 2
    {
      RunStepsActions(LeftOnlySteps(keys, musicLeft), a);
    }
  }

  lemma ThenInOrder(a: Run, b: Run, s: nat)
    requires forall x | x in a.actions :: Stage(x) == s
    requires StagesInOrder(b.actions) && forall y | y in b.actions :: Stage(y) >= s
    ensures StagesInOrder(Then(a, b).actions) && forall y | y in Then(a, b).actions :: Stage(y) >= s
  {
    var r := Then(a, b).actions;
    if a.failure.None? {
      forall i, j | 0 <= i < j < |r|
        ensures Stage(r[i]) <= Stage(r[j])
      {
        if i < |a.actions| {
          assert r[i] in a.actions;
          if j >= |a.actions| {
            assert r[j] in b.actions;
          } else {
            assert r[j] in a.actions;
          }
        } else {
          assert r[i] == b.actions[i - |a.actions|] && r[j] == b.actions[j - |a.actions|];
        }
      }
    } else {
      assert forall i | 0 <= i < |r| :: r[i] in a.actions;
    }
  }

  /** Seven runs of stages 0, 1, 2, 2, 3, 4 and 5, each run after the last succeeded, give actions in stage order. */
  lemma SevenStagesInOrder(r0: Run, r1: Run, r2: Run, r3: Run, r4: Run, r5: Run, r6: Run)
    requires forall a | a in r0.actions :: Stage(a) == 0
    requires forall a | a in r1.actions :: Stage(a) == 1
    requires forall a | a in r2.actions :: Stage(a) == 2
    requires forall a | a in r3.actions :: Stage(a) == 2
    requires forall a | a in r4.actions :: Stage(a) == 3
    requires forall a | a in r5.actions :: Stage(a) == 4
    requires forall a | a in r6.actions :: Stage(a) == 5
    ensures StagesInOrder(Then(r0, Then(r1, Then(r2, Then(r3, Then(r4, Then(r5, r6)))))).actions)
  {
    ThenInOrder(r5, r6, 4);
    ThenInOrder(r4, Then(r5, r6), 3);
    ThenInOrder(r3, Then(r4, Then(r5, r6)), 2);
    ThenInOrder(r2, Then(r3, Then(r4, Then(r5, r6))), 2);
    ThenInOrder(r1, Then(r2, Then(r3, Then(r4, Then(r5, r6)))), 1);
    ThenInOrder(r0, Then(r1, Then(r2, Then(r3, Then(r4, Then(r5, r6))))), 0);
  }

  /** The seven stages of `synchronise`, over any tables, give actions in stage order. */
  lemma SyncStagesInOrder(dirsToCopy: seq<(string, nat)>, restToCopy: seq<string>, r2: Run, r3: Run,
                          musicOrder: seq<string>, musicToDelete: map<string, Audio>, fileOrder: seq<string>,
                          dirsToDelete: seq<(string, nat)>)
    requires forall a | a in r2.actions :: Stage(a) == 2
    requires forall a | a in r3.actions :: Stage(a) == 2
    requires forall y | y in musicOrder :: y in musicToDelete
    ensures StagesInOrder(Then(Run(MakeDirActions(dirsToCopy), None), Then(Run(CopyFileActions(restToCopy), None),
              Then(r2, Then(r3, Then(Run(DeleteMusicActions(musicOrder, musicToDelete), None),
              Then(Run(DeleteFileActions(fileOrder), None), Run(RemoveDirActions(dirsToDelete), None))))))).actions)
  {
    MakeDirActionsKind(dirsToCopy);
    CopyFileActionsKind(restToCopy);
    DeleteMusicActionsKind(musicOrder, musicToDelete);
    DeleteFileActionsKind(fileOrder);
    RemoveDirActionsKind(dirsToDelete);
    SevenStagesInOrder(Run(MakeDirActions(dirsToCopy), None), Run(CopyFileActions(restToCopy), None), r2, r3,
                       Run(DeleteMusicActions(musicOrder, musicToDelete), None),
                       Run(DeleteFileActions(fileOrder), None), Run(RemoveDirActions(dirsToDelete), None));
  }

  /** The actions of a run come stage by stage: directories made, files copied, audio renewed, deletions, directories removed. */
  lemma PlanStagesInOrder(c: CompResult, tags: TagSource, musicOrder: seq<string>, fileOrder: seq<string>)
    requires c.Valid() && IsOrderOf(musicOrder, c.musicToDelete.Keys)
    ensures StagesInOrder(c.Plan(tags, musicOrder, fileOrder).actions)
  {
    ChangedStageActions(tags, c.musicChanged, c.musicLeft, c.musicRight);
    LeftOnlyStageActions(c.musicLeftOnly, c.musicLeft);
    SyncStagesInOrder(c.dirsToCopy, c.restToCopy,
                      RunSteps(ChangedSteps(tags, c.musicChanged, c.musicLeft, c.musicRight)),
                      RunSteps(LeftOnlySteps(c.musicLeftOnly, c.musicLeft)),
                      musicOrder, c.musicToDelete, fileOrder, c.dirsToDelete);
  }

  // ---------------------------------------------------------------------------
  // The decision table

  datatype Kind = Flac | Mp3 | Other

  /** Where a key stands: on one side only, or on both with one copy newer, or both equally old. */
  datatype Situation = LeftOnly | RightOnly | LeftNewer(sameTags: bool) | RightNewer | SameTime

  datatype Verdict = Encoded | Copied | Deleted | TagsCopied | Untouched

  /**
    The table at the head of the script. A key with equally old copies is
    not in the table; the script leaves it alone.
   */
  function Matrix(kind: Kind, s: Situation): Verdict
  {
    match s
    case LeftOnly => if kind == Flac then Encoded else Copied
    case RightOnly => Deleted
    case LeftNewer(sameTags) =>
      if kind == Other then Copied
      else if !sameTags then TagsCopied
      else if kind == Flac then Encoded
      else Copied
    case RightNewer => if kind == Other then Copied else Untouched
    case SameTime => Untouched
  }

  function KindOf(ext: string): Kind
  {
    if Lower(ext) == ".flac" then Flac else if Lower(ext) == ".mp3" then Mp3 else Other
  }

  /** The verdict an action carries out. */
  function VerdictOf(a: Action): Verdict
  {
    match a
    case Encode(_, _, _) => Encoded
    case CopyMusic(_, _) => Copied
    case CopyFile(_) => Copied
    case DeleteMusic(_, _) => Deleted
    case DeleteFile(_) => Deleted
    case WriteTags(_, _) => TagsCopied
    case MakeDir(_) => Untouched
    case RemoveDir(_) => Untouched
  }

  predicate IsMusicAction(a: Action)
  {
    a.WriteTags? || a.Encode? || a.CopyMusic? || a.DeleteMusic?
  }

  predicate IsFileAction(a: Action)
  {
    a.CopyFile? || a.DeleteFile?
  }

  /** The actions on the audio file with key `x`, in order. */
  function MusicActionsFor(acts: seq<Action>, x: string): seq<Action>
  {
    if acts == [] then []
    else (if IsMusicAction(acts[0]) && acts[0].key == x then [acts[0]] else []) + MusicActionsFor(acts[1..], x)
  }

  /** The actions on the other file with key `x`, in order. */
  function FileActionsFor(acts: seq<Action>, x: string): seq<Action>
  {
    if acts == [] then []
    else (if IsFileAction(acts[0]) && acts[0].key == x then [acts[0]] else []) + FileActionsFor(acts[1..], x)
  }

  lemma {:induction false} MusicActionsForAppend(a: seq<Action>, b: seq<Action>, x: string)
    ensures MusicActionsFor(a + b, x) == MusicActionsFor(a, x) + MusicActionsFor(b, x)
  {
    if a == [] {
      assert a + b == b;
    } else {
      assert (a + b)[0] == a[0];
      assert (a + b)[1..] == a[1..] + b;
      MusicActionsForAppend(a[1..], b, x);
    }
  }

  lemma {:induction false} FileActionsForAppend(a: seq<Action>, b: seq<Action>, x: string)
    ensures FileActionsFor(a + b, x) == FileActionsFor(a, x) + FileActionsFor(b, x)
  {
    if a == [] {
      assert a + b == b;
    } else {
      assert (a + b)[0] == a[0];
      assert (a + b)[1..] == a[1..] + b;
      FileActionsForAppend(a[1..], b, x);
    }
  }

  /** The actions on `x` of a stage that acts once on each of its distinct keys. */
  lemma {:induction false} ActionsForKeyed(acts: seq<Action>, keys: seq<string>, x: string)
    requires |acts| == |keys| && Distinct(keys)
    requires forall i | 0 <= i < |acts| :: acts[i].key == keys[i]
    ensures x !in keys ==> MusicActionsFor(acts, x) == [] && FileActionsFor(acts, x) == []
    ensures forall i | 0 <= i < |keys| && keys[i] == x ::
              MusicActionsFor(acts, x) == (if IsMusicAction(acts[i]) then [acts[i]] else []) &&
              FileActionsFor(acts, x) == (if IsFileAction(acts[i]) then [acts[i]] else [])
  {
    if acts != [] {
      assert Distinct(keys[1..]) by {
        forall i, j | 0 <= i < j < |keys[1..]| ensures keys[1..][i] != keys[1..][j] {
          assert keys[1..][i] == keys[i + 1] && keys[1..][j] == keys[j + 1];
        }
      }
      ActionsForKeyed(acts[1..], keys[1..], x);
      if keys[0] == x {
        assert x !in keys[1..] by {
          forall i | 0 <= i < |keys[1..]| ensures keys[1..][i] != x {
            assert keys[1..][i] == keys[i + 1];
          }
        }
      } else {
        forall i | 0 <= i < |keys| && keys[i] == x
          ensures i > 0 && keys[1..][i - 1] == x
        {
        }
      }
    }
  }

  /** A stage without audio actions has none on `x`. */
  lemma {:induction false} NoMusicActions(acts: seq<Action>, x: string)
    requires forall a | a in acts :: !IsMusicAction(a)
    ensures MusicActionsFor(acts, x) == []
  {
    if acts != [] {
      assert acts[0] in acts;
      assert forall a | a in acts[1..] :: a in acts;
      NoMusicActions(acts[1..], x);
    }
  }

  /** A stage without other-file actions has none on `x`. */
  lemma {:induction false} NoFileActions(acts: seq<Action>, x: string)
    requires forall a | a in acts :: !IsFileAction(a)
    ensures FileActionsFor(acts, x) == []
  {
    if acts != [] {
      assert acts[0] in acts;
      assert forall a | a in acts[1..] :: a in acts;
      NoFileActions(acts[1..], x);
    }
  }

  /** A key of `_copy_files` is copied once; no other key is touched. */
  lemma CopyFileActionsFor(keys: seq<string>, x: string)
    requires Distinct(keys)
    ensures MusicActionsFor(CopyFileActions(keys), x) == []
    ensures FileActionsFor(CopyFileActions(keys), x) == if x in keys then [CopyFile(x)] else []
  {
    ActionsForKeyed(CopyFileActions(keys), keys, x);
  }

  /** A key of `_remove_files` is deleted once; no other key is touched. */
  lemma DeleteFileActionsFor(order: seq<string>, x: string)
    requires Distinct(order)
    ensures MusicActionsFor(DeleteFileActions(order), x) == []
    ensures FileActionsFor(DeleteFileActions(order), x) == if x in order then [DeleteFile(x)] else []
  {
    ActionsForKeyed(DeleteFileActions(order), order, x);
  }

  /** A key of `_remove_music` is deleted once; no other key is touched. */
  lemma DeleteMusicActionsFor(order: seq<string>, toDelete: map<string, Audio>, x: string)
    requires Distinct(order) && forall y | y in order :: y in toDelete
    ensures FileActionsFor(DeleteMusicActions(order, toDelete), x) == []
    ensures MusicActionsFor(DeleteMusicActions(order, toDelete), x) == if x in order then [DeleteMusic(x, toDelete[x].ext)] else []
  {
    ActionsForKeyed(DeleteMusicActions(order, toDelete), order, x);
  }

  /** The actions on `x` of steps, all successful, that act once on each of their distinct keys. */
  lemma SucceededStepsFor(steps: seq<Result<Action, Failure>>, keys: seq<string>, x: string)
    requires |steps| == |keys| && Distinct(keys) && RunSteps(steps).failure.None?
    requires forall i | 0 <= i < |steps| && steps[i].Ok? :: steps[i].value.key == keys[i] && IsMusicAction(steps[i].value)
    ensures FileActionsFor(RunSteps(steps).actions, x) == []
    ensures x !in keys ==> MusicActionsFor(RunSteps(steps).actions, x) == []
    ensures forall i | 0 <= i < |keys| && keys[i] == x :: steps[i].Ok? && MusicActionsFor(RunSteps(steps).actions, x) == [steps[i].value]
  {
    RunStepsMeaning(steps);
    ActionsForKeyed(RunSteps(steps).actions, keys, x);
  }

  lemma ChangedActionKey(tags: TagSource, x: string, left: Audio, right: Audio)
    ensures ChangedAction(tags, x, left, right).Ok? ==>
              ChangedAction(tags, x, left, right).value.key == x && IsMusicAction(ChangedAction(tags, x, left, right).value)
  {
  }

  /** When `_copy_music_changed` succeeds, each of its keys gets the action of its own iteration. */
  lemma ChangedActionsFor(tags: TagSource, keys: seq<string>, musicLeft: map<string, Audio>, musicRight: map<string, Audio>, x: string)
    requires Distinct(keys) && forall y | y in keys :: y in musicLeft && y in musicRight
    requires RunSteps(ChangedSteps(tags, keys, musicLeft, musicRight)).failure.None?
    ensures FileActionsFor(RunSteps(ChangedSteps(tags, keys, musicLeft, musicRight)).actions, x) == []
    ensures x !in keys ==> MusicActionsFor(RunSteps(ChangedSteps(tags, keys, musicLeft, musicRight)).actions, x) == []
    ensures x in keys ==>
              && ChangedAction(tags, x, musicLeft[x], musicRight[x]).Ok?
              && MusicActionsFor(RunSteps(ChangedSteps(tags, keys, musicLeft, musicRight)).actions, x) ==
                 [ChangedAction(tags, x, musicLeft[x], musicRight[x]).value]
  {
    var steps := ChangedSteps(tags, keys, musicLeft, musicRight);
    forall i | 0 <= i < |steps| && steps[i].Ok?
      ensures steps[i].value.key == keys[i] && IsMusicAction(steps[i].value)
    {
      ChangedActionKey(tags, keys[i], musicLeft[keys[i]], musicRight[keys[i]]);
    }
    SucceededStepsFor(steps, keys, x);
    if x in keys {
      var i :| 0 <= i < |keys| && keys[i] == x;
    }
  }

  /** When `_copy_music_leftonly` succeeds, each of its keys gets the action of its own iteration. */
  lemma LeftOnlyActionsFor(keys: seq<string>, musicLeft: map<string, Audio>, x: string)
    requires Distinct(keys) && forall y | y in keys :: y in musicLeft
    requires RunSteps(LeftOnlySteps(keys, musicLeft)).failure.None?
    ensures FileActionsFor(RunSteps(LeftOnlySteps(keys, musicLeft)).actions, x) == []
    ensures x !in keys ==> MusicActionsFor(RunSteps(LeftOnlySteps(keys, musicLeft)).actions, x) == []
    ensures x in keys ==>
              && LeftOnlyAction(x, musicLeft[x]).Ok?
              && MusicActionsFor(RunSteps(LeftOnlySteps(keys, musicLeft)).actions, x) == [LeftOnlyAction(x, musicLeft[x]).value]
  {
    var steps := LeftOnlySteps(keys, musicLeft);
    SucceededStepsFor(steps, keys, x);
    if x in keys {
      var i :| 0 <= i < |keys| && keys[i] == x;
    }
  }

  /** Seven runs that all succeed, one after another. */
  lemma SevenRuns(r0: Run, r1: Run, r2: Run, r3: Run, r4: Run, r5: Run, r6: Run)
    requires Then(r0, Then(r1, Then(r2, Then(r3, Then(r4, Then(r5, r6)))))).failure.None?
    ensures r0.failure.None? && r1.failure.None? && r2.failure.None? && r3.failure.None? &&
            r4.failure.None? && r5.failure.None? && r6.failure.None?
    ensures Then(r0, Then(r1, Then(r2, Then(r3, Then(r4, Then(r5, r6)))))).actions ==
            r0.actions + (r1.actions + (r2.actions + (r3.actions + (r4.actions + (r5.actions + r6.actions)))))
  {
  }

  /** In seven stages shaped like a run, the audio actions on a key are those of stages 2, 3 and 4. */
  lemma MusicOfStages(a0: seq<Action>, a1: seq<Action>, a2: seq<Action>, a3: seq<Action>, a4: seq<Action>, a5: seq<Action>, a6: seq<Action>, x: string)
    requires forall a | a in a0 :: !IsMusicAction(a)
    requires forall a | a in a1 :: !IsMusicAction(a)
    requires forall a | a in a5 :: !IsMusicAction(a)
    requires forall a | a in a6 :: !IsMusicAction(a)
    ensures MusicActionsFor(a0 + (a1 + (a2 + (a3 + (a4 + (a5 + a6))))), x) ==
            MusicActionsFor(a2, x) + MusicActionsFor(a3, x) + MusicActionsFor(a4, x)
  {
    var t5 := a5 + a6;
    var t4 := a4 + t5;
    var t3 := a3 + t4;
    var t2 := a2 + t3;
    var t1 := a1 + t2;
    NoMusicActions(a0, x);
    NoMusicActions(a1, x);
    NoMusicActions(a5, x);
    NoMusicActions(a6, x);
    MusicActionsForAppend(a5, a6, x);
    MusicActionsForAppend(a4, t5, x);
    MusicActionsForAppend(a3, t4, x);
    MusicActionsForAppend(a2, t3, x);
    MusicActionsForAppend(a1, t2, x);
    MusicActionsForAppend(a0, t1, x);
  }

  /** In seven stages shaped like a run, the other-file actions on a key are those of stages 1 and 5. */
  lemma FilesOfStages(a0: seq<Action>, a1: seq<Action>, a2: seq<Action>, a3: seq<Action>, a4: seq<Action>, a5: seq<Action>, a6: seq<Action>, x: string)
    requires forall a | a in a0 :: !IsFileAction(a)
    requires forall a | a in a2 :: !IsFileAction(a)
    requires forall a | a in a3 :: !IsFileAction(a)
    requires forall a | a in a4 :: !IsFileAction(a)
    requires forall a | a in a6 :: !IsFileAction(a)
    ensures FileActionsFor(a0 + (a1 + (a2 + (a3 + (a4 + (a5 + a6))))), x) == FileActionsFor(a1, x) + FileActionsFor(a5, x)
  {
    var t5 := a5 + a6;
    var t4 := a4 + t5;
    var t3 := a3 + t4;
    var t2 := a2 + t3;
    var t1 := a1 + t2;
    NoFileActions(a0, x);
    NoFileActions(a2, x);
    NoFileActions(a3, x);
    NoFileActions(a4, x);
    NoFileActions(a6, x);
    FileActionsForAppend(a5, a6, x);
    FileActionsForAppend(a4, t5, x);
    FileActionsForAppend(a3, t4, x);
    FileActionsForAppend(a2, t3, x);
    FileActionsForAppend(a1, t2, x);
    FileActionsForAppend(a0, t1, x);
  }

  /** Without a failure, the run is the seven stages one after another, each complete. */
  lemma PlanActions(c: CompResult, tags: TagSource, musicOrder: seq<string>, fileOrder: seq<string>)
    requires c.Valid() && IsOrderOf(musicOrder, c.musicToDelete.Keys)
    requires c.Plan(tags, musicOrder, fileOrder).failure.None?
    ensures RunSteps(ChangedSteps(tags, c.musicChanged, c.musicLeft, c.musicRight)).failure.None?
    ensures RunSteps(LeftOnlySteps(c.musicLeftOnly, c.musicLeft)).failure.None?
    ensures c.Plan(tags, musicOrder, fileOrder).actions ==
              MakeDirActions(c.dirsToCopy) + (CopyFileActions(c.restToCopy) +
              (RunSteps(ChangedSteps(tags, c.musicChanged, c.musicLeft, c.musicRight)).actions +
              (RunSteps(LeftOnlySteps(c.musicLeftOnly, c.musicLeft)).actions +
              (DeleteMusicActions(musicOrder, c.musicToDelete) + (DeleteFileActions(fileOrder) +
              RemoveDirActions(c.dirsToDelete))))))
  {
    SevenRuns(Run(MakeDirActions(c.dirsToCopy), None),
              Run(CopyFileActions(c.restToCopy), None),
              RunSteps(ChangedSteps(tags, c.musicChanged, c.musicLeft, c.musicRight)),
              RunSteps(LeftOnlySteps(c.musicLeftOnly, c.musicLeft)),
              Run(DeleteMusicActions(musicOrder, c.musicToDelete), None),
              Run(DeleteFileActions(fileOrder), None),
              Run(RemoveDirActions(c.dirsToDelete), None));
  }

  /** Without a failure, the actions on one audio key are those of the three stages that handle audio. */
  lemma PlanMusicActionsFor(c: CompResult, tags: TagSource, musicOrder: seq<string>, fileOrder: seq<string>, x: string)
    requires c.Valid() && IsOrderOf(musicOrder, c.musicToDelete.Keys)
    requires c.Plan(tags, musicOrder, fileOrder).failure.None?
    ensures x in c.musicChanged ==> ChangedAction(tags, x, c.musicLeft[x], c.musicRight[x]).Ok?
    ensures x in c.musicLeftOnly ==> LeftOnlyAction(x, c.musicLeft[x]).Ok?
    ensures MusicActionsFor(c.Plan(tags, musicOrder, fileOrder).actions, x) ==
            (if x in c.musicChanged then [ChangedAction(tags, x, c.musicLeft[x], c.musicRight[x]).value] else []) +
            (if x in c.musicLeftOnly then [LeftOnlyAction(x, c.musicLeft[x]).value] else []) +
            (if x in musicOrder then [DeleteMusic(x, c.musicToDelete[x].ext)] else [])
  {
    PlanActions(c, tags, musicOrder, fileOrder);
    var a0 := MakeDirActions(c.dirsToCopy);
    var a1 := CopyFileActions(c.restToCopy);
    var a2 := RunSteps(ChangedSteps(tags, c.musicChanged, c.musicLeft, c.musicRight)).actions;
    var a3 := RunSteps(LeftOnlySteps(c.musicLeftOnly, c.musicLeft)).actions;
    var a4 := DeleteMusicActions(musicOrder, c.musicToDelete);
    var a5 := DeleteFileActions(fileOrder);
    var a6 := RemoveDirActions(c.dirsToDelete);
    MusicOfStages(a0, a1, a2, a3, a4, a5, a6, x);
    ChangedActionsFor(tags, c.musicChanged, c.musicLeft, c.musicRight, x);
    LeftOnlyActionsFor(c.musicLeftOnly, c.musicLeft, x);
    DeleteMusicActionsFor(musicOrder, c.musicToDelete, x);
  }

  lemma MakeDirActionsKind(ds: seq<(string, nat)>)
    ensures forall a | a in MakeDirActions(ds) :: a.MakeDir?
  {
    forall a | a in MakeDirActions(ds) ensures a.MakeDir? {
      var i :| 0 <= i < |ds| && MakeDirActions(ds)[i] == a;
    }
  }

  lemma RemoveDirActionsKind(ds: seq<(string, nat)>)
    ensures forall a | a in RemoveDirActions(ds) :: a.RemoveDir?
  {
    forall a | a in RemoveDirActions(ds) ensures a.RemoveDir? {
      var i :| 0 <= i < |ds| && RemoveDirActions(ds)[i] == a;
    }
  }

  lemma DeleteMusicActionsKind(order: seq<string>, toDelete: map<string, Audio>)
    requires forall x | x in order :: x in toDelete
    ensures forall a | a in DeleteMusicActions(order, toDelete) :: a.DeleteMusic?
  {
    forall a | a in DeleteMusicActions(order, toDelete) ensures a.DeleteMusic? {
      var i :| 0 <= i < |order| && DeleteMusicActions(order, toDelete)[i] == a;
    }
  }

  lemma CopyFileActionsKind(keys: seq<string>)
    ensures forall a | a in CopyFileActions(keys) :: a.CopyFile?
  {
    forall a | a in CopyFileActions(keys) ensures a.CopyFile? {
      var i :| 0 <= i < |keys| && CopyFileActions(keys)[i] == a;
    }
  }

  lemma DeleteFileActionsKind(order: seq<string>)
    ensures forall a | a in DeleteFileActions(order) :: a.DeleteFile?
  {
    forall a | a in DeleteFileActions(order) ensures a.DeleteFile? {
      var i :| 0 <= i < |order| && DeleteFileActions(order)[i] == a;
    }
  }

  /** The other-file actions on a key among the seven stages of `synchronise`, whatever the tables. */
  lemma FilesOfPlanStages(dirsToCopy: seq<(string, nat)>, restToCopy: seq<string>, a2: seq<Action>, a3: seq<Action>,
                          musicOrder: seq<string>, musicToDelete: map<string, Audio>, fileOrder: seq<string>,
                          dirsToDelete: seq<(string, nat)>, x: string)
    requires forall a | a in a2 :: Stage(a) == 2
    requires forall a | a in a3 :: Stage(a) == 2
    requires forall y | y in musicOrder :: y in musicToDelete
    requires Distinct(restToCopy) && Distinct(fileOrder)
    ensures FileActionsFor(MakeDirActions(dirsToCopy) + (CopyFileActions(restToCopy) + (a2 + (a3 +
              (DeleteMusicActions(musicOrder, musicToDelete) + (DeleteFileActions(fileOrder) + RemoveDirActions(dirsToDelete)))))), x) ==
            (if x in restToCopy then [CopyFile(x)] else []) + (if x in fileOrder then [DeleteFile(x)] else [])
  {
    var a0 := MakeDirActions(dirsToCopy);
    var a4 := DeleteMusicActions(musicOrder, musicToDelete);
    var a6 := RemoveDirActions(dirsToDelete);
    MakeDirActionsKind(dirsToCopy);
    DeleteMusicActionsKind(musicOrder, musicToDelete);
    RemoveDirActionsKind(dirsToDelete);
    FilesOfStages(a0, CopyFileActions(restToCopy), a2, a3, a4, DeleteFileActions(fileOrder), a6, x);
    CopyFileActionsFor(restToCopy, x);
    DeleteFileActionsFor(fileOrder, x);
  }

  /** Without a failure, the actions on one other file's key are those of `_copy_files` and `_remove_files`. */
  lemma PlanFileActionsFor(c: CompResult, tags: TagSource, musicOrder: seq<string>, fileOrder: seq<string>, x: string)
    requires c.Valid() && IsOrderOf(musicOrder, c.musicToDelete.Keys) && IsOrderOf(fileOrder, c.restToDelete)
    requires c.Plan(tags, musicOrder, fileOrder).failure.None?
    ensures FileActionsFor(c.Plan(tags, musicOrder, fileOrder).actions, x) ==
            (if x in c.restToCopy then [CopyFile(x)] else []) + (if x in fileOrder then [DeleteFile(x)] else [])
  {
    PlanActions(c, tags, musicOrder, fileOrder);
    ChangedStageActions(tags, c.musicChanged, c.musicLeft, c.musicRight);
    LeftOnlyStageActions(c.musicLeftOnly, c.musicLeft);
    FilesOfPlanStages(c.dirsToCopy, c.restToCopy,
                      RunSteps(ChangedSteps(tags, c.musicChanged, c.musicLeft, c.musicRight)).actions,
                      RunSteps(LeftOnlySteps(c.musicLeftOnly, c.musicLeft)).actions,
                      musicOrder, c.musicToDelete, fileOrder, c.dirsToDelete, x);
  }

  /** The situation of an audio key; the tags of a newer left copy are compared with the right copy's. */
  function MusicSituation(tags: TagSource, x: string, musicLeft: map<string, Audio>, musicRight: map<string, Audio>): Situation
    requires x in musicLeft || x in musicRight
  {
    if x !in musicRight then LeftOnly
    else if x !in musicLeft then RightOnly
    else if musicLeft[x].lastMod > musicRight[x].lastMod then
      LeftNewer(ReadLeftTags(tags, x, musicLeft[x]) == ReadRightTags(tags, x, musicRight[x]))
    else if musicLeft[x].lastMod < musicRight[x].lastMod then RightNewer
    else SameTime
  }

  /** The situation of another file's key; tags play no part. */
  function FileSituation(x: string, restLeft: map<string, int>, restRight: map<string, int>): Situation
    requires x in restLeft || x in restRight
  {
    if x !in restRight then LeftOnly
    else if x !in restLeft then RightOnly
    else if restLeft[x] > restRight[x] then LeftNewer(true)
    else if restLeft[x] < restRight[x] then RightNewer
    else SameTime
  }

  /** The kind of an audio key: that of the left copy when there is one. */
  function MusicKind(x: string, musicLeft: map<string, Audio>, musicRight: map<string, Audio>): Kind
    requires x in musicLeft || x in musicRight
  {
    if x in musicLeft then KindOf(musicLeft[x].ext) else KindOf(musicRight[x].ext)
  }

  /** One iteration of `_copy_music_changed` that succeeds does what the table says for a newer left copy. */
  lemma ChangedFollowsMatrix(tags: TagSource, x: string, left: Audio, right: Audio)
    requires ChangedAction(tags, x, left, right).Ok?
    ensures ReadLeftTags(tags, x, left).Ok? && ReadRightTags(tags, x, right).Ok?
    ensures VerdictOf(ChangedAction(tags, x, left, right).value) ==
            Matrix(KindOf(left.ext), LeftNewer(ReadLeftTags(tags, x, left) == ReadRightTags(tags, x, right)))
    ensures KindOf(left.ext) != Other && right.ext == ".mp3"
  {
  }

  /** One iteration of `_copy_music_leftonly` that succeeds does what the table says for a file only the left side has. */
  lemma LeftOnlyFollowsMatrix(x: string, left: Audio)
    requires LeftOnlyAction(x, left).Ok?
    ensures VerdictOf(LeftOnlyAction(x, left).value) == Matrix(KindOf(left.ext), LeftOnly)
    ensures KindOf(left.ext) != Other
  {
  }

  /** The audio actions on one key, as the three audio stages produce them, follow the table. */
  lemma MusicVerdict(tags: TagSource, musicLeft: map<string, Audio>, musicRight: map<string, Audio>,
                     leftOnly: seq<string>, changed: seq<string>, toDelete: map<string, Audio>, musicOrder: seq<string>,
                     x: string, acts: seq<Action>)
    requires toDelete == MusicMissingFrom(musicRight, musicLeft)
    requires forall y :: y in leftOnly <==> y in musicLeft && y !in musicRight
    requires forall y :: y in changed <==> y in musicLeft && y in musicRight && musicLeft[y].lastMod > musicRight[y].lastMod
    requires forall y :: y in musicOrder <==> y in toDelete
    requires AudioExtsOnly(musicLeft)
    requires x in musicLeft || x in musicRight
    requires x in changed ==> ChangedAction(tags, x, musicLeft[x], musicRight[x]).Ok?
    requires x in leftOnly ==> LeftOnlyAction(x, musicLeft[x]).Ok?
    requires acts == (if x in changed then [ChangedAction(tags, x, musicLeft[x], musicRight[x]).value] else []) +
                     (if x in leftOnly then [LeftOnlyAction(x, musicLeft[x]).value] else []) +
                     (if x in musicOrder then [DeleteMusic(x, toDelete[x].ext)] else [])
    ensures var verdict := Matrix(MusicKind(x, musicLeft, musicRight), MusicSituation(tags, x, musicLeft, musicRight));
            (verdict == Untouched ==> acts == []) &&
            (verdict != Untouched ==> |acts| == 1 && VerdictOf(acts[0]) == verdict)
  {
    MusicPartition(musicLeft, musicRight, leftOnly, changed, toDelete, x);
    if x in changed {
      ChangedFollowsMatrix(tags, x, musicLeft[x], musicRight[x]);
    } else if x in leftOnly {
      LeftOnlyFollowsMatrix(x, musicLeft[x]);
    } else if x !in musicOrder {
      assert IsAudioExt(musicLeft[x].ext);
    }
  }

  /**
    For every audio key of either side, a run that ends without failure
    performs on it exactly the action the table gives for its kind and its
    situation, once, or nothing when the table says to leave it alone.
   */
  lemma MusicFollowsMatrix(c: CompResult, tags: TagSource, musicOrder: seq<string>, fileOrder: seq<string>, x: string)
    requires c.Valid() && IsOrderOf(musicOrder, c.musicToDelete.Keys) && IsOrderOf(fileOrder, c.restToDelete)
    requires AudioExtsOnly(c.musicLeft)
    requires c.Plan(tags, musicOrder, fileOrder).failure.None?
    requires x in c.musicLeft || x in c.musicRight
    ensures var acts := MusicActionsFor(c.Plan(tags, musicOrder, fileOrder).actions, x);
            var verdict := Matrix(MusicKind(x, c.musicLeft, c.musicRight), MusicSituation(tags, x, c.musicLeft, c.musicRight));
            (verdict == Untouched ==> acts == []) &&
            (verdict != Untouched ==> |acts| == 1 && VerdictOf(acts[0]) == verdict)
  {
    PlanMusicActionsFor(c, tags, musicOrder, fileOrder, x);
    MusicVerdict(tags, c.musicLeft, c.musicRight, c.musicLeftOnly, c.musicChanged, c.musicToDelete, musicOrder,
                 x, MusicActionsFor(c.Plan(tags, musicOrder, fileOrder).actions, x));
  }

  /** The other-file actions on one key, as `_copy_files` and `_remove_files` produce them, follow the table. */
  lemma FileVerdict(restLeft: map<string, int>, restRight: map<string, int>, toCopy: seq<string>, toDelete: set<string>,
                    fileOrder: seq<string>, x: string, acts: seq<Action>)
    requires toDelete == restRight.Keys - restLeft.Keys
    requires forall y :: y in toCopy <==> y in restLeft && (y !in restRight || restLeft[y] != restRight[y])
    requires forall y :: y in fileOrder <==> y in toDelete
    requires x in restLeft || x in restRight
    requires acts == (if x in toCopy then [CopyFile(x)] else []) + (if x in fileOrder then [DeleteFile(x)] else [])
    ensures var verdict := Matrix(Other, FileSituation(x, restLeft, restRight));
            (verdict == Untouched ==> acts == []) &&
            (verdict != Untouched ==> |acts| == 1 && VerdictOf(acts[0]) == verdict)
  {
  }

  /**
    For every other-file key of either side, a run that ends without failure
    copies it when the left copy is new or differs in time, deletes it when
    only the right side has it, and otherwise leaves it alone.
   */
  lemma FilesFollowMatrix(c: CompResult, tags: TagSource, musicOrder: seq<string>, fileOrder: seq<string>, x: string)
    requires c.Valid() && IsOrderOf(musicOrder, c.musicToDelete.Keys) && IsOrderOf(fileOrder, c.restToDelete)
    requires c.Plan(tags, musicOrder, fileOrder).failure.None?
    requires x in c.restLeft || x in c.restRight
    ensures var acts := FileActionsFor(c.Plan(tags, musicOrder, fileOrder).actions, x);
            var verdict := Matrix(Other, FileSituation(x, c.restLeft, c.restRight));
            (verdict == Untouched ==> acts == []) &&
            (verdict != Untouched ==> |acts| == 1 && VerdictOf(acts[0]) == verdict)
  {
    PlanFileActionsFor(c, tags, musicOrder, fileOrder, x);
    FileVerdict(c.restLeft, c.restRight, c.restToCopy, c.restToDelete, fileOrder,
                x, FileActionsFor(c.Plan(tags, musicOrder, fileOrder).actions, x));
  }

  // ---------------------------------------------------------------------------
  // Failures

  /** A chain of seven runs whose other stages cannot fail fails only the way the third or the fourth does. */
  lemma SevenFailure(r0: Run, r1: Run, r2: Run, r3: Run, r4: Run, r5: Run, r6: Run)
    requires r0.failure.None? && r1.failure.None? && r4.failure.None? && r5.failure.None? && r6.failure.None?
    ensures var f := Then(r0, Then(r1, Then(r2, Then(r3, Then(r4, Then(r5, r6)))))).failure;
            f == r2.failure || f == r3.failure || f.None?
  {
  }

  lemma ChangedActionKnown(tags: TagSource, x: string, left: Audio, right: Audio)
    requires IsAudioExt(left.ext)
    ensures ChangedAction(tags, x, left, right).Err? ==> !ChangedAction(tags, x, left, right).error.UnknownKind?
  {
  }

  /** Comparing changed audio files never meets an unknown extension when the left table holds only audio extensions. */
  lemma ChangedStepsKnown(tags: TagSource, keys: seq<string>, musicLeft: map<string, Audio>, musicRight: map<string, Audio>)
    requires forall x | x in keys :: x in musicLeft && x in musicRight
    requires AudioExtsOnly(musicLeft)
    ensures var f := RunSteps(ChangedSteps(tags, keys, musicLeft, musicRight)).failure;
            !(f.Some? && f.value.UnknownKind?)
  {
    var s := ChangedSteps(tags, keys, musicLeft, musicRight);
    forall i | 0 <= i < |s| && s[i].Err?
      ensures !s[i].error.UnknownKind?
    {
      ChangedActionKnown(tags, keys[i], musicLeft[keys[i]], musicRight[keys[i]]);
    }
    RunStepsFirstErr(s);
  }

  /** Copying left-only audio files never meets an unknown extension when the left table holds only audio extensions. */
  lemma LeftOnlyStepsKnown(keys: seq<string>, musicLeft: map<string, Audio>)
    requires forall x | x in keys :: x in musicLeft
    requires AudioExtsOnly(musicLeft)
    ensures RunSteps(LeftOnlySteps(keys, musicLeft)).failure.None?
  {
    var s := LeftOnlySteps(keys, musicLeft);
    forall i | 0 <= i < |s|
      ensures s[i].Ok?
    {
      assert keys[i] in musicLeft;
    }
    RunStepsMeaning(s);
  }

  /** Scanned audio tables hold only flac and mp3 files, so "What is this thing?" is never raised. */
  lemma NoUnknownKind(c: CompResult, tags: TagSource, musicOrder: seq<string>, fileOrder: seq<string>)
    requires c.Valid() && IsOrderOf(musicOrder, c.musicToDelete.Keys) && AudioExtsOnly(c.musicLeft)
    ensures !(c.Plan(tags, musicOrder, fileOrder).failure.Some? && c.Plan(tags, musicOrder, fileOrder).failure.value.UnknownKind?)
  {
    ChangedStepsKnown(tags, c.musicChanged, c.musicLeft, c.musicRight);
    LeftOnlyStepsKnown(c.musicLeftOnly, c.musicLeft);
    SevenFailure(Run(MakeDirActions(c.dirsToCopy), None), Run(CopyFileActions(c.restToCopy), None),
                 RunSteps(ChangedSteps(tags, c.musicChanged, c.musicLeft, c.musicRight)),
                 RunSteps(LeftOnlySteps(c.musicLeftOnly, c.musicLeft)),
                 Run(DeleteMusicActions(musicOrder, c.musicToDelete), None),
                 Run(DeleteFileActions(fileOrder), None), Run(RemoveDirActions(c.dirsToDelete), None));
  }

  /** A run that ends without failure found every changed audio file's right copy named with exactly ".mp3". */
  lemma CompletedRunHadMp3Targets(c: CompResult, tags: TagSource, musicOrder: seq<string>, fileOrder: seq<string>)
    requires c.Valid() && IsOrderOf(musicOrder, c.musicToDelete.Keys)
    requires c.Plan(tags, musicOrder, fileOrder).failure.None?
    ensures forall x | x in c.musicChanged :: c.musicRight[x].ext == ".mp3"
  {
    PlanActions(c, tags, musicOrder, fileOrder);
    var s2 := ChangedSteps(tags, c.musicChanged, c.musicLeft, c.musicRight);
    RunStepsMeaning(s2);
    forall x | x in c.musicChanged
      ensures c.musicRight[x].ext == ".mp3"
    {
      var i :| 0 <= i < |c.musicChanged| && c.musicChanged[i] == x;
      assert s2[i].Ok?;
    }
  }

  /**
    The scanner takes ".MP3" for an audio extension, but a newer left copy
    over such a right file stops the run at the assertion.
   */
  lemma UpperCaseTargetStops(tags: TagSource)
    ensures IsAudioExt(".MP3")
    ensures ChangedAction(tags, "song", Audio(".flac", 2), Audio(".MP3", 1)) == Err(NotMp3Target("song", ".MP3"))
  {
    assert Lower(".MP3") == ".mp3";
    assert Lower(".flac") == ".flac";
  }

  // ---------------------------------------------------------------------------
  // Removing directories

  /** `_remove_dirs` walks the table backwards, so a directory comes after every directory below it. */
  lemma RemoveDirsChildrenFirst(ds: seq<(string, nat)>)
    requires AncestorsFirst(ds)
    ensures forall i, j | 0 <= i < |ds| && 0 <= j < |ds| &&
                          IsAncestor(RemoveDirActions(ds)[i].key, RemoveDirActions(ds)[j].key) :: j < i
  {
    var acts := RemoveDirActions(ds);
    forall i, j | 0 <= i < |ds| && 0 <= j < |ds| && IsAncestor(acts[i].key, acts[j].key)
      ensures j < i
    {
      assert IsAncestor(ds[|ds| - 1 - i].0, ds[|ds| - 1 - j].0);
    }
  }

  /** Every directory of a table is removed by the actions for that table. */
  lemma RemoveDirActionsCover(ds: seq<(string, nat)>, k: string)
    requires k in DirKeys(ds)
    ensures RemoveDir(k) in RemoveDirActions(ds)
  {
    var j :| 0 <= j < |ds| && ds[j].0 == k;
    assert RemoveDirActions(ds)[|ds| - 1 - j] == RemoveDir(k);
  }

  lemma RemoveDirActionKey(ds: seq<(string, nat)>, i: nat) returns (p: string)
    requires i < |ds|
    ensures p == RemoveDirActions(ds)[i].key && p in DirKeys(ds)
  {
    p := ds[|ds| - 1 - i].0;
  }

  lemma RemovedDirClosedAt(dirsLeft: seq<(string, nat)>, dirsRight: seq<(string, nat)>, i: nat, k: string)
    requires AncestorsListed(dirsLeft)
    requires i < |DirsMissingFrom(dirsRight, dirsLeft)| && k in DirKeys(dirsRight)
    requires IsAncestor(RemoveDirActions(DirsMissingFrom(dirsRight, dirsLeft))[i].key, k)
    ensures RemoveDir(k) in RemoveDirActions(DirsMissingFrom(dirsRight, dirsLeft))
  {
    var ds := DirsMissingFrom(dirsRight, dirsLeft);
    var p := RemoveDirActionKey(ds, i);
    DirsMissingFromBelow(dirsRight, dirsLeft, p, k);
    RemoveDirActionsCover(ds, k);
  }

  /** Every right directory below a removed one is removed too, when the left table lists the ancestors of its directories. */
  lemma RemovedDirsClosed(dirsLeft: seq<(string, nat)>, dirsRight: seq<(string, nat)>)
    requires AncestorsListed(dirsLeft)
    ensures var acts := RemoveDirActions(DirsMissingFrom(dirsRight, dirsLeft));
            forall i, k | 0 <= i < |acts| && k in DirKeys(dirsRight) && IsAncestor(acts[i].key, k) :: RemoveDir(k) in acts
  {
    var acts := RemoveDirActions(DirsMissingFrom(dirsRight, dirsLeft));
    forall i, k | 0 <= i < |acts| && k in DirKeys(dirsRight) && IsAncestor(acts[i].key, k)
      ensures RemoveDir(k) in acts
    {
      RemovedDirClosedAt(dirsLeft, dirsRight, i, k);
    }
  }

  /** No key of `keys` lies below a removed directory, when every directory above such a key is on the left. */
  lemma RemovedDirsHoldNone(keys: set<string>, dirsLeft: seq<(string, nat)>, dirsRight: seq<(string, nat)>)
    requires forall k, p | k in keys && IsAncestor(p, k) :: p in DirKeys(dirsLeft)
    ensures var acts := RemoveDirActions(DirsMissingFrom(dirsRight, dirsLeft));
            forall i, k | 0 <= i < |acts| && k in keys :: !IsAncestor(acts[i].key, k)
  {
    var ds := DirsMissingFrom(dirsRight, dirsLeft);
    var acts := RemoveDirActions(ds);
    forall i, k | 0 <= i < |acts| && k in keys
      ensures !IsAncestor(acts[i].key, k)
    {
      assert acts[i].key == ds[|ds| - 1 - i].0;
      assert ds[|ds| - 1 - i] in ds;
    }
  }

  /** Every directory above a file of a well-formed scanned tree is in its directory table. */
  lemma FilesUnderScannedDirs(cfg: Config, left: seq<Entry>)
    requires WellFormed(left)
    ensures var snap := Scan(cfg, left, 0);
            forall k, p | k in snap.music.Keys + snap.rest.Keys && IsAncestor(p, k) :: p in DirKeys(snap.dirs)
  {
    var snap := Scan(cfg, left, 0);
    forall k, p | k in snap.music.Keys + snap.rest.Keys && IsAncestor(p, k)
      ensures p in DirKeys(snap.dirs)
    {
      ScanFileAncestors(cfg, left, 0, k, p);
    }
  }

  /**
    Removing the right directories the left side lacks, deepest first, when
    the right table lists every directory after those above it and the left
    side lists every directory above each of its directories and files.
   */
  lemma RemovalEmptiesDirs(dirsLeft: seq<(string, nat)>, dirsRight: seq<(string, nat)>,
                           musicLeft: map<string, Audio>, musicRight: map<string, Audio>,
                           restLeft: map<string, int>, restRight: map<string, int>)
    requires KeysDistinct(dirsRight) && AncestorsFirst(dirsRight) && AncestorsListed(dirsLeft)
    requires forall k, p | k in musicLeft.Keys + restLeft.Keys && IsAncestor(p, k) :: p in DirKeys(dirsLeft)
    ensures var acts := RemoveDirActions(DirsMissingFrom(dirsRight, dirsLeft));
            && (forall i, j | 0 <= i < |acts| && 0 <= j < |acts| && IsAncestor(acts[i].key, acts[j].key) :: j < i)
            && (forall i, k | 0 <= i < |acts| && k in DirKeys(dirsRight) && IsAncestor(acts[i].key, k) :: RemoveDir(k) in acts)
            && (forall i, k | 0 <= i < |acts| && k in musicRight && IsAncestor(acts[i].key, k) :: k in MusicMissingFrom(musicRight, musicLeft))
            && (forall i, k | 0 <= i < |acts| && k in restRight && IsAncestor(acts[i].key, k) :: k in restRight.Keys - restLeft.Keys)
  {
    DirsMissingFromOrder(dirsRight, dirsLeft);
    RemoveDirsChildrenFirst(DirsMissingFrom(dirsRight, dirsLeft));
    RemovedDirsClosed(dirsLeft, dirsRight);
    RemovedDirsHoldNone(musicLeft.Keys + restLeft.Keys, dirsLeft, dirsRight);
  }

  /**
    For two well-formed trees, every directory removed from the right side is
    removed after every right directory below it, which is removed too, and
    every file the scan saw below it is deleted by an earlier stage.
   */
  lemma RemovedDirsAreEmptied(c: CompResult, cfg: Config, left: seq<Entry>, right: seq<Entry>)
    requires c.Valid() && c.ScannedFrom(cfg, left, right) && WellFormed(left) && WellFormed(right)
    ensures var acts := RemoveDirActions(c.dirsToDelete);
            && (forall i, j | 0 <= i < |acts| && 0 <= j < |acts| && IsAncestor(acts[i].key, acts[j].key) :: j < i)
            && (forall i, k | 0 <= i < |acts| && k in DirKeys(c.dirsRight) && IsAncestor(acts[i].key, k) :: RemoveDir(k) in acts)
            && (forall i, k | 0 <= i < |acts| && k in c.musicRight && IsAncestor(acts[i].key, k) :: k in c.musicToDelete)
            && (forall i, k | 0 <= i < |acts| && k in c.restRight && IsAncestor(acts[i].key, k) :: k in c.restToDelete)
  {
    var sl, sr := Scan(cfg, left, 0), Scan(cfg, right, 0);
    ScanDirs(cfg, left, 0);
    ScanDirs(cfg, right, 0);
    FilesUnderScannedDirs(cfg, left);
    assert sl.dirs == c.dirsLeft && sl.music == c.musicLeft && sl.rest == c.restLeft;
    assert sr.dirs == c.dirsRight;
    assert c.dirsToDelete == DirsMissingFrom(c.dirsRight, c.dirsLeft);
    RemovalEmptiesDirs(c.dirsLeft, c.dirsRight, c.musicLeft, c.musicRight, c.restLeft, c.restRight);
  }

  // ---------------------------------------------------------------------------
  // The outcome

  /**
    The comparison's collections, applied to the right side's tables, give
    the left side's tables: directory keys, audio keys, and other files with
    their times. `PlanMirrors` states the same of the actions of a run.
   */
  lemma SyncMirrors(c: CompResult)
    requires c.Valid()
    ensures (DirKeys(c.dirsRight) - DirKeys(c.dirsToDelete)) + DirKeys(c.dirsToCopy) == DirKeys(c.dirsLeft)
    ensures (c.musicRight.Keys - c.musicToDelete.Keys) + (set x | x in c.musicLeftOnly) == c.musicLeft.Keys
    ensures FilesAfterSync(c.restLeft, c.restRight, c.restToCopy, c.restToDelete) == c.restLeft
  {
    DirsMissingFromKeys(c.dirsLeft, c.dirsRight);
    DirsMissingFromKeys(c.dirsRight, c.dirsLeft);
    FilesSyncMirrors(c.restLeft, c.restRight, c.restToCopy, c.restToDelete);
  }

  /** Audio actions that leave the left copy's audio or tags in the right file. */
  predicate Renews(a: Action)
  {
    a.WriteTags? || a.Encode? || a.CopyMusic?
  }

  /** The directories a trace creates. */
  ghost function MadeDirs(acts: seq<Action>): set<string>
  {
    set a | a in acts && a.MakeDir? :: a.key
  }

  /** The directories a trace removes. */
  ghost function RemovedDirs(acts: seq<Action>): set<string>
  {
    set a | a in acts && a.RemoveDir? :: a.key
  }

  /** The audio keys a trace writes from the left side. */
  ghost function RenewedMusic(acts: seq<Action>): set<string>
  {
    set a | a in acts && Renews(a) :: a.key
  }

  /** The audio keys a trace deletes. */
  ghost function DeletedMusic(acts: seq<Action>): set<string>
  {
    set a | a in acts && a.DeleteMusic? :: a.key
  }

  /** The other files a trace copies from the left side. */
  ghost function CopiedFiles(acts: seq<Action>): set<string>
  {
    set a | a in acts && a.CopyFile? :: a.key
  }

  /** The other files a trace deletes. */
  ghost function DeletedFiles(acts: seq<Action>): set<string>
  {
    set a | a in acts && a.DeleteFile? :: a.key
  }

  /** The audio actions on a key are the audio actions of the trace with that key. */
  lemma {:induction false} MusicActionsForMember(acts: seq<Action>, x: string, a: Action)
    ensures a in MusicActionsFor(acts, x) <==> a in acts && IsMusicAction(a) && a.key == x
  {
    if acts != [] {
      MusicActionsForMember(acts[1..], x, a);
      assert acts == [acts[0]] + acts[1..];
    }
  }

  /** The other-file actions on a key are the other-file actions of the trace with that key. */
  lemma {:induction false} FileActionsForMember(acts: seq<Action>, x: string, a: Action)
    ensures a in FileActionsFor(acts, x) <==> a in acts && IsFileAction(a) && a.key == x
  {
    if acts != [] {
      FileActionsForMember(acts[1..], x, a);
      assert acts == [acts[0]] + acts[1..];
    }
  }

  lemma MakeDirActionsKeys(ds: seq<(string, nat)>)
    ensures MadeDirs(MakeDirActions(ds)) == DirKeys(ds)
  {
    var acts := MakeDirActions(ds);
    forall k | k in MadeDirs(acts) ensures k in DirKeys(ds) {
      var a :| a in acts && a.MakeDir? && a.key == k;
      var i :| 0 <= i < |acts| && acts[i] == a;
    }
    forall k | k in DirKeys(ds) ensures k in MadeDirs(acts) {
      var i :| 0 <= i < |ds| && ds[i].0 == k;
      assert acts[i] in acts;
    }
  }

  lemma RemoveDirActionsKeys(ds: seq<(string, nat)>)
    ensures RemovedDirs(RemoveDirActions(ds)) == DirKeys(ds)
  {
    var acts := RemoveDirActions(ds);
    forall k | k in RemovedDirs(acts) ensures k in DirKeys(ds) {
      var a :| a in acts && a.RemoveDir? && a.key == k;
      var i :| 0 <= i < |acts| && acts[i] == a;
    }
    forall k | k in DirKeys(ds) ensures k in RemovedDirs(acts) {
      var i :| 0 <= i < |ds| && ds[i].0 == k;
      assert acts[|ds| - 1 - i] in acts;
    }
  }

  /** Only the first stage creates directories and only the last removes them. */
  lemma DirsOfPlanStages(dirsToCopy: seq<(string, nat)>, restToCopy: seq<string>, a2: seq<Action>, a3: seq<Action>,
                         musicOrder: seq<string>, musicToDelete: map<string, Audio>, fileOrder: seq<string>,
                         dirsToDelete: seq<(string, nat)>)
    requires forall a | a in a2 :: Stage(a) == 2
    requires forall a | a in a3 :: Stage(a) == 2
    requires forall y | y in musicOrder :: y in musicToDelete
    ensures MadeDirs(MakeDirActions(dirsToCopy) + (CopyFileActions(restToCopy) + (a2 + (a3 +
              (DeleteMusicActions(musicOrder, musicToDelete) + (DeleteFileActions(fileOrder) + RemoveDirActions(dirsToDelete))))))) ==
            DirKeys(dirsToCopy)
    ensures RemovedDirs(MakeDirActions(dirsToCopy) + (CopyFileActions(restToCopy) + (a2 + (a3 +
              (DeleteMusicActions(musicOrder, musicToDelete) + (DeleteFileActions(fileOrder) + RemoveDirActions(dirsToDelete))))))) ==
            DirKeys(dirsToDelete)
  {
    var a0 := MakeDirActions(dirsToCopy);
    var a1 := CopyFileActions(restToCopy);
    var a4 := DeleteMusicActions(musicOrder, musicToDelete);
    var a5 := DeleteFileActions(fileOrder);
    var a6 := RemoveDirActions(dirsToDelete);
    var acts := a0 + (a1 + (a2 + (a3 + (a4 + (a5 + a6)))));
    MakeDirActionsKind(dirsToCopy);
    CopyFileActionsKind(restToCopy);
    DeleteMusicActionsKind(musicOrder, musicToDelete);
    DeleteFileActionsKind(fileOrder);
    RemoveDirActionsKind(dirsToDelete);
    assert MadeDirs(acts) == MadeDirs(a0);
    assert RemovedDirs(acts) == RemovedDirs(a6);
    MakeDirActionsKeys(dirsToCopy);
    RemoveDirActionsKeys(dirsToDelete);
  }

  /** Without a failure, a run creates exactly the missing directories and removes exactly the right-only ones. */
  lemma PlanDirKeys(c: CompResult, tags: TagSource, musicOrder: seq<string>, fileOrder: seq<string>)
    requires c.Valid() && IsOrderOf(musicOrder, c.musicToDelete.Keys)
    requires c.Plan(tags, musicOrder, fileOrder).failure.None?
    ensures MadeDirs(c.Plan(tags, musicOrder, fileOrder).actions) == DirKeys(c.dirsToCopy)
    ensures RemovedDirs(c.Plan(tags, musicOrder, fileOrder).actions) == DirKeys(c.dirsToDelete)
  {
    PlanActions(c, tags, musicOrder, fileOrder);
    ChangedStageActions(tags, c.musicChanged, c.musicLeft, c.musicRight);
    LeftOnlyStageActions(c.musicLeftOnly, c.musicLeft);
    DirsOfPlanStages(c.dirsToCopy, c.restToCopy,
                     RunSteps(ChangedSteps(tags, c.musicChanged, c.musicLeft, c.musicRight)).actions,
                     RunSteps(LeftOnlySteps(c.musicLeftOnly, c.musicLeft)).actions,
                     musicOrder, c.musicToDelete, fileOrder, c.dirsToDelete);
  }

  /** A key is written (deleted) by a trace exactly when one of its own audio actions writes (deletes) it. */
  lemma MusicKeysFromActions(acts: seq<Action>, x: string, renew: seq<Action>, del: seq<Action>)
    requires MusicActionsFor(acts, x) == renew + del
    requires forall a | a in renew :: Renews(a)
    requires forall a | a in del :: a.DeleteMusic?
    ensures x in RenewedMusic(acts) <==> renew != []
    ensures x in DeletedMusic(acts) <==> del != []
  {
    if x in RenewedMusic(acts) {
      var a :| a in acts && Renews(a) && a.key == x;
      MusicActionsForMember(acts, x, a);
    }
    if renew != [] {
      assert renew[0] in renew + del;
      MusicActionsForMember(acts, x, renew[0]);
    }
    if x in DeletedMusic(acts) {
      var a :| a in acts && a.DeleteMusic? && a.key == x;
      MusicActionsForMember(acts, x, a);
    }
    if del != [] {
      assert del[0] in renew + del;
      MusicActionsForMember(acts, x, del[0]);
    }
  }

  /** A successful iteration of either audio-copying stage writes from the left side. */
  lemma StepRenews(tags: TagSource, x: string, left: Audio, right: Audio)
    ensures ChangedAction(tags, x, left, right).Ok? ==> Renews(ChangedAction(tags, x, left, right).value)
    ensures LeftOnlyAction(x, left).Ok? ==> Renews(LeftOnlyAction(x, left).value)
  {
  }

  /** Without a failure, a run writes the changed and left-only audio keys and deletes the right-only ones. */
  lemma PlanMusicKey(c: CompResult, tags: TagSource, musicOrder: seq<string>, fileOrder: seq<string>, x: string)
    requires c.Valid() && IsOrderOf(musicOrder, c.musicToDelete.Keys)
    requires c.Plan(tags, musicOrder, fileOrder).failure.None?
    ensures x in RenewedMusic(c.Plan(tags, musicOrder, fileOrder).actions) <==> x in c.musicChanged || x in c.musicLeftOnly
    ensures x in DeletedMusic(c.Plan(tags, musicOrder, fileOrder).actions) <==> x in c.musicToDelete
  {
    PlanMusicActionsFor(c, tags, musicOrder, fileOrder, x);
    var ch := if x in c.musicChanged then [ChangedAction(tags, x, c.musicLeft[x], c.musicRight[x]).value] else [];
    var lo := if x in c.musicLeftOnly then [LeftOnlyAction(x, c.musicLeft[x]).value] else [];
    var del := if x in musicOrder then [DeleteMusic(x, c.musicToDelete[x].ext)] else [];
    if x in c.musicLeft {
      StepRenews(tags, x, c.musicLeft[x], if x in c.musicRight then c.musicRight[x] else c.musicLeft[x]);
    }
    MusicKeysFromActions(c.Plan(tags, musicOrder, fileOrder).actions, x, ch + lo, del);
  }

  /** A key is copied (deleted) by a trace exactly when one of its own other-file actions copies (deletes) it. */
  lemma FileKeysFromActions(acts: seq<Action>, x: string, copy: seq<Action>, del: seq<Action>)
    requires FileActionsFor(acts, x) == copy + del
    requires forall a | a in copy :: a.CopyFile?
    requires forall a | a in del :: a.DeleteFile?
    ensures x in CopiedFiles(acts) <==> copy != []
    ensures x in DeletedFiles(acts) <==> del != []
  {
    if x in CopiedFiles(acts) {
      var a :| a in acts && a.CopyFile? && a.key == x;
      FileActionsForMember(acts, x, a);
    }
    if copy != [] {
      assert copy[0] in copy + del;
      FileActionsForMember(acts, x, copy[0]);
    }
    if x in DeletedFiles(acts) {
      var a :| a in acts && a.DeleteFile? && a.key == x;
      FileActionsForMember(acts, x, a);
    }
    if del != [] {
      assert del[0] in copy + del;
      FileActionsForMember(acts, x, del[0]);
    }
  }

  /** Without a failure, a run copies the files to copy and deletes the right-only ones. */
  lemma PlanFileKey(c: CompResult, tags: TagSource, musicOrder: seq<string>, fileOrder: seq<string>, x: string)
    requires c.Valid() && IsOrderOf(musicOrder, c.musicToDelete.Keys) && IsOrderOf(fileOrder, c.restToDelete)
    requires c.Plan(tags, musicOrder, fileOrder).failure.None?
    ensures x in CopiedFiles(c.Plan(tags, musicOrder, fileOrder).actions) <==> x in c.restToCopy
    ensures x in DeletedFiles(c.Plan(tags, musicOrder, fileOrder).actions) <==> x in c.restToDelete
  {
    PlanFileActionsFor(c, tags, musicOrder, fileOrder, x);
    FileKeysFromActions(c.Plan(tags, musicOrder, fileOrder).actions, x,
                        if x in c.restToCopy then [CopyFile(x)] else [],
                        if x in fileOrder then [DeleteFile(x)] else []);
  }

  /**
    After a run without failure, the right side's tables with the trace's
    removals and deletions taken out and its creations, encodes and copies
    added give the left side's keys; a left file the run does not copy is
    already on the right with the left time.
   */
  lemma PlanMirrors(c: CompResult, tags: TagSource, musicOrder: seq<string>, fileOrder: seq<string>)
    requires c.Valid() && IsOrderOf(musicOrder, c.musicToDelete.Keys) && IsOrderOf(fileOrder, c.restToDelete)
    requires c.Plan(tags, musicOrder, fileOrder).failure.None?
    ensures (DirKeys(c.dirsRight) - RemovedDirs(c.Plan(tags, musicOrder, fileOrder).actions))
              + MadeDirs(c.Plan(tags, musicOrder, fileOrder).actions) == DirKeys(c.dirsLeft)
    ensures (c.musicRight.Keys - DeletedMusic(c.Plan(tags, musicOrder, fileOrder).actions))
              + RenewedMusic(c.Plan(tags, musicOrder, fileOrder).actions) == c.musicLeft.Keys
    ensures (c.restRight.Keys - DeletedFiles(c.Plan(tags, musicOrder, fileOrder).actions))
              + CopiedFiles(c.Plan(tags, musicOrder, fileOrder).actions) == c.restLeft.Keys
    ensures forall x | x in c.restLeft && x !in CopiedFiles(c.Plan(tags, musicOrder, fileOrder).actions) ::
              x in c.restRight && c.restRight[x] == c.restLeft[x]
  {
    var acts := c.Plan(tags, musicOrder, fileOrder).actions;
    PlanDirKeys(c, tags, musicOrder, fileOrder);
    DirsMissingFromKeys(c.dirsLeft, c.dirsRight);
    DirsMissingFromKeys(c.dirsRight, c.dirsLeft);
    forall x ensures x in (c.musicRight.Keys - DeletedMusic(acts)) + RenewedMusic(acts) <==> x in c.musicLeft {
      PlanMusicKey(c, tags, musicOrder, fileOrder, x);
    }
    forall x ensures x in (c.restRight.Keys - DeletedFiles(acts)) + CopiedFiles(acts) <==> x in c.restLeft {
      PlanFileKey(c, tags, musicOrder, fileOrder, x);
    }
    forall x | x in c.restLeft && x !in CopiedFiles(acts) ensures x in c.restRight && c.restRight[x] == c.restLeft[x] {
      PlanFileKey(c, tags, musicOrder, fileOrder, x);
    }
  }
}
