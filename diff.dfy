/**
  The diff engine: what `CompResult.__init__`, `_compare_files` and
  `_compare_music` (synch_to_mp3.py lines 250-290) derive from the two scans.
  Directories and audio files present on one side only, other files whose
  modification times differ in either direction, and audio files whose left
  copy is strictly newer.

  The audio and other-file tables are maps, so the loops that walk them visit
  the keys in an order the model leaves open; the lists they build hold each
  key once.
 */
module Diff {
  import opened Text
  import opened Scanner

  /** A list that holds no element twice. */
  predicate Distinct<T(==)>(s: seq<T>)
  {
    forall i, j | 0 <= i < j < |s| :: s[i] != s[j]
  }

  // ---------------------------------------------------------------------------
  // Directories

  /**
    `{k: v for k, v in ds.items() if k not in other}` on a directory table:
    the entries of `ds` whose key `other` lacks, in their order
    (`DirsMissingFromSubsequence`).
   */
  function DirsMissingFrom(ds: seq<(string, nat)>, other: seq<(string, nat)>): (r: seq<(string, nat)>)
    ensures |r| <= |ds|
    ensures forall x :: x in r <==> x in ds && x.0 !in DirKeys(other)
  {
    if ds == [] then []
    else (if ds[0].0 in DirKeys(other) then [] else [ds[0]]) + DirsMissingFrom(ds[1..], other)
  }

  /** The keys of the filtered table are those of `ds` that `other` lacks. */
  lemma DirsMissingFromKeys(ds: seq<(string, nat)>, other: seq<(string, nat)>)
    ensures DirKeys(DirsMissingFrom(ds, other)) == DirKeys(ds) - DirKeys(other)
  {
    var r := DirsMissingFrom(ds, other);
    forall k | k in DirKeys(ds) - DirKeys(other)
      ensures k in DirKeys(r)
    {
      var i :| 0 <= i < |ds| && ds[i].0 == k;
      assert ds[i] in r;
    }
    forall k | k in DirKeys(r)
      ensures k in DirKeys(ds) - DirKeys(other)
    {
      var i :| 0 <= i < |r| && r[i].0 == k;
      assert r[i] in ds;
    }
  }

  lemma ConsAncestorsFirst(x: (string, nat), t: seq<(string, nat)>)
    requires AncestorsFirst(t)
    requires forall y | y in t :: !IsAncestor(y.0, x.0)
    ensures AncestorsFirst([x] + t)
  {
    var s := [x] + t;
    forall i, j | 0 <= i < |s| && 0 <= j < |s| && IsAncestor(s[i].0, s[j].0)
      ensures i < j
    {
      if j > 0 && i > 0 {
        assert IsAncestor(t[i - 1].0, t[j - 1].0);
      }
    }
  }

  lemma ConsKeysDistinct(x: (string, nat), t: seq<(string, nat)>)
    requires KeysDistinct(t)
    requires forall y | y in t :: y.0 != x.0
    ensures KeysDistinct([x] + t)
  {
    var s := [x] + t;
    forall i, j | 0 <= i < j < |s|
      ensures s[i].0 != s[j].0
    {
      if i > 0 {
        assert s[i] == t[i - 1] && s[j] == t[j - 1];
      } else {
        assert s[j] in t;
      }
    }
  }

  /**
    Filtering keeps the order of the table: no key twice, and every directory
    still after the directories above it.
   */
  lemma {:induction false} DirsMissingFromOrder(ds: seq<(string, nat)>, other: seq<(string, nat)>)
    requires KeysDistinct(ds) && AncestorsFirst(ds)
    ensures KeysDistinct(DirsMissingFrom(ds, other)) && AncestorsFirst(DirsMissingFrom(ds, other))
  {
    if ds != [] {
      var t := ds[1..];
      assert KeysDistinct(t) by {
        forall i, j | 0 <= i < j < |t| ensures t[i].0 != t[j].0 {
          assert t[i] == ds[i + 1] && t[j] == ds[j + 1];
        }
      }
      assert AncestorsFirst(t) by {
        forall i, j | 0 <= i < |t| && 0 <= j < |t| && IsAncestor(t[i].0, t[j].0) ensures i < j {
          assert t[i] == ds[i + 1] && t[j] == ds[j + 1];
        }
      }
      DirsMissingFromOrder(t, other);
      if ds[0].0 !in DirKeys(other) {
        var r := DirsMissingFrom(t, other);
        forall y | y in r
          ensures !IsAncestor(y.0, ds[0].0) && y.0 != ds[0].0
        {
          var i :| 0 <= i < |t| && t[i] == y;
          assert ds[i + 1] == y;
        }
        ConsAncestorsFirst(ds[0], r);
        ConsKeysDistinct(ds[0], r);
      }
    }
  }

  /** `r` is `s` with some elements dropped and the rest in their order. */
  ghost predicate IsSubsequence<T>(r: seq<T>, s: seq<T>)
    decreases |s|
  {
    r == [] || (s != [] && (IsSubsequence(r, s[1..]) || (r[0] == s[0] && IsSubsequence(r[1..], s[1..]))))
  }

  /** Filtering keeps the table's order. */
  lemma {:induction false} DirsMissingFromSubsequence(ds: seq<(string, nat)>, other: seq<(string, nat)>)
    ensures IsSubsequence(DirsMissingFrom(ds, other), ds)
  {
    if ds != [] {
      var rt := DirsMissingFrom(ds[1..], other);
      DirsMissingFromSubsequence(ds[1..], other);
      if ds[0].0 !in DirKeys(other) {
        var r := [ds[0]] + rt;
        assert DirsMissingFrom(ds, other) == r;
        assert r[0] == ds[0] && r[1..] == rt;
        assert IsSubsequence(r[1..], ds[1..]);
      } else {
        assert DirsMissingFrom(ds, other) == rt;
      }
    }
  }

  /**
    A directory of `ds` that `other` lacks takes with it every directory of
    `ds` below it, when `other` lists every directory above each of its own.
   */
  lemma DirsMissingFromBelow(ds: seq<(string, nat)>, other: seq<(string, nat)>, p: string, k: string)
    requires AncestorsListed(other)
    requires p in DirKeys(DirsMissingFrom(ds, other)) && k in DirKeys(ds) && IsAncestor(p, k)
    ensures k in DirKeys(DirsMissingFrom(ds, other))
  {
    DirsMissingFromKeys(ds, other);
  }

  // ---------------------------------------------------------------------------
  // Other files

  /**
    `_compare_files`: the keys only the right side has are to be deleted; a
    left key is to be copied when the right lacks it or when the two
    modification times differ, whichever side is newer.
   */
  method CompareFiles(restLeft: map<string, int>, restRight: map<string, int>)
      returns (toCopy: seq<string>, toDelete: set<string>)
    ensures toDelete == restRight.Keys - restLeft.Keys
    ensures forall x :: x in toCopy <==> x in restLeft && (x !in restRight || restLeft[x] != restRight[x])
    ensures Distinct(toCopy)
  {
    toDelete := restRight.Keys - restLeft.Keys;
    toCopy := [];
    var todo := restLeft.Keys;
    while todo != {}
      invariant todo <= restLeft.Keys
      invariant forall x :: x in toCopy <==> x in restLeft && x !in todo && (x !in restRight || restLeft[x] != restRight[x])
      invariant Distinct(toCopy)
      decreases todo
    {
      var x :| x in todo;
      if x in restRight {
        if restLeft[x] != restRight[x] {
          toCopy := toCopy + [x];
        }
      } else {
        toCopy := toCopy + [x];
      }
      todo := todo - {x};
    }
  }

  /**
    The other-file table of the right side once `_copy_files` and
    `_remove_files` are done: `shutil.copy2` carries the left modification time
    over, `os.remove` drops the key.
   */
  function FilesAfterSync(restLeft: map<string, int>, restRight: map<string, int>, toCopy: seq<string>, toDelete: set<string>): (r: map<string, int>)
    requires forall x | x in toCopy :: x in restLeft
    ensures r.Keys == (restRight.Keys + (set x | x in toCopy)) - toDelete
  {
    (restRight + map x | x in toCopy :: restLeft[x]) - toDelete
  }

  /** After the file stages the right side has exactly the left side's other files, with the left times. */
  lemma FilesSyncMirrors(restLeft: map<string, int>, restRight: map<string, int>, toCopy: seq<string>, toDelete: set<string>)
    requires toDelete == restRight.Keys - restLeft.Keys
    requires forall x :: x in toCopy <==> x in restLeft && (x !in restRight || restLeft[x] != restRight[x])
    ensures FilesAfterSync(restLeft, restRight, toCopy, toDelete) == restLeft
  {
    var r := FilesAfterSync(restLeft, restRight, toCopy, toDelete);
    assert r.Keys == restLeft.Keys;
    forall x | x in r
      ensures r[x] == restLeft[x]
    {
      if x !in toCopy {
        assert x in restRight && restLeft[x] == restRight[x];
      }
    }
  }

  // ---------------------------------------------------------------------------
  // Audio files

  /** `{k: v for k, v in music_right.items() if k not in music_left}`. */
  function MusicMissingFrom(musicRight: map<string, Audio>, musicLeft: map<string, Audio>): (r: map<string, Audio>)
    ensures r.Keys == musicRight.Keys - musicLeft.Keys
    ensures forall k | k in r :: r[k] == musicRight[k]
  {
    map k | k in musicRight && k !in musicLeft :: musicRight[k]
  }

  /**
    `_compare_music`: right-only keys are to be deleted (with their entries),
    left-only keys are new, and a key on both sides has changed when its left
    modification time is strictly greater than its right one.
   */
  method CompareMusic(musicLeft: map<string, Audio>, musicRight: map<string, Audio>)
      returns (leftOnly: seq<string>, changed: seq<string>, toDelete: map<string, Audio>)
    ensures toDelete == MusicMissingFrom(musicRight, musicLeft)
    ensures forall x :: x in leftOnly <==> x in musicLeft && x !in musicRight
    ensures forall x :: x in changed <==> x in musicLeft && x in musicRight && musicLeft[x].lastMod > musicRight[x].lastMod
    ensures Distinct(leftOnly) && Distinct(changed)
  {
    toDelete := MusicMissingFrom(musicRight, musicLeft);
    leftOnly, changed := [], [];
    var todo := musicLeft.Keys;
    while todo != {}
      invariant todo <= musicLeft.Keys
      invariant forall x :: x in leftOnly <==> x in musicLeft && x !in todo && x !in musicRight
      invariant forall x :: x in changed <==> x in musicLeft && x !in todo && x in musicRight && musicLeft[x].lastMod > musicRight[x].lastMod
      invariant Distinct(leftOnly) && Distinct(changed)
      decreases todo
    {
      var x :| x in todo;
      if x in musicRight {
        if musicLeft[x].lastMod > musicRight[x].lastMod {
          changed := changed + [x];
        }
      } else {
        leftOnly := leftOnly + [x];
      }
      todo := todo - {x};
    }
  }

  /**
    The three audio collections are pairwise disjoint, and every key of
    either side outside them is on both sides with a right copy at least as
    new as the left one.
   */
  lemma MusicPartition(musicLeft: map<string, Audio>, musicRight: map<string, Audio>,
                       leftOnly: seq<string>, changed: seq<string>, toDelete: map<string, Audio>, k: string)
    requires toDelete == MusicMissingFrom(musicRight, musicLeft)
    requires forall x :: x in leftOnly <==> x in musicLeft && x !in musicRight
    requires forall x :: x in changed <==> x in musicLeft && x in musicRight && musicLeft[x].lastMod > musicRight[x].lastMod
    requires k in musicLeft || k in musicRight
    ensures !(k in leftOnly && k in changed) && !(k in leftOnly && k in toDelete) && !(k in changed && k in toDelete)
    ensures k !in leftOnly && k !in changed && k !in toDelete <==>
            k in musicLeft && k in musicRight && musicLeft[k].lastMod <= musicRight[k].lastMod
  {
  }
}
