/**
  The scanner, `get_files_dirs` (synch_to_mp3.py lines 220-247). A directory
  listing is a sequence of entries in the order `scandir` yields them; the
  scan builds three tables keyed by paths relative to the scanned directory:
  audio files (".flac" or ".mp3" in any case) under their path without the
  extension, other files under their full path, and directories, in the order
  they were found, with their depth.

  Python's dicts keep insertion order. The audio and other-file tables are
  only ever looked up and iterated as sets of keys, so they are Dafny maps;
  the directory table's order matters to `_remove_dirs`, so it is a sequence
  of (key, depth) pairs. Inserting into a dict is appending to that sequence
  because the keys of a listing are distinct (`ScanDirs`).
 */
module Scanner {
  import opened Text
  import opened Settings

  /** A directory entry as `scandir` reports it: a file with its modification time, or a sub-directory with its own listing. */
  datatype Entry =
    | File(name: string, lastMod: int)
    | Folder(name: string, entries: seq<Entry>)

  /** The value of the audio table: the extension as it is spelled, and the modification time. */
  datatype Audio = Audio(ext: string, lastMod: int)

  /** The three tables one scan returns. */
  datatype Snapshot = Snapshot(music: map<string, Audio>, rest: map<string, int>, dirs: seq<(string, nat)>)

  /**
    A listing the filesystem can produce: entry names are non-empty, hold no
    separator and are distinct within a directory, all the way down.
   */
  predicate WellFormed(entries: seq<Entry>)
    decreases entries
  {
    && (forall i :: 0 <= i < |entries| ==> IsName(entries[i].name))
    && (forall i, j :: 0 <= i < j < |entries| ==> entries[i].name != entries[j].name)
    && (forall i :: 0 <= i < |entries| && entries[i].Folder? ==> WellFormed(entries[i].entries))
  }

  /** `ext.lower() in ('.flac', '.mp3')`. */
  predicate IsAudioExt(ext: string)
  {
    Lower(ext) == ".flac" || Lower(ext) == ".mp3"
  }

  /**
    The keys of a sub-directory's table, joined onto the sub-directory's name:
    the dict comprehension `{os.path.join(entry.name, x): y for x, y in sub.items()}`,
    defined one key at a time so that its properties are proved by induction.
   */
  ghost function PrefixMap<V>(dir: string, m: map<string, V>): map<string, V>
    decreases m.Keys
  {
    if m == map[] then map[]
    else
      var k :| k in m;
      PrefixMap(dir, m - {k})[Join(dir, k) := m[k]]
  }

  /** Every key of the sub-directory's table appears joined onto its name, with the same value. */
  lemma {:induction false} PrefixMapAt<V>(dir: string, m: map<string, V>, k: string)
    requires k in m
    ensures Join(dir, k) in PrefixMap(dir, m) && PrefixMap(dir, m)[Join(dir, k)] == m[k]
    decreases m.Keys
  {
    var k0 :| k0 in m && PrefixMap(dir, m) == PrefixMap(dir, m - {k0})[Join(dir, k0) := m[k0]];
    if k != k0 {
      PrefixMapAt(dir, m - {k0}, k);
      JoinInjectiveRight(dir);
    }
  }

  /** Nothing but the joined sub-keys appears in the joined table. */
  lemma {:induction false} PrefixMapOnly<V>(dir: string, m: map<string, V>, j: string)
    requires j in PrefixMap(dir, m)
    ensures exists k | k in m :: j == Join(dir, k)
    decreases m.Keys
  {
    var k0 :| k0 in m && PrefixMap(dir, m) == PrefixMap(dir, m - {k0})[Join(dir, k0) := m[k0]];
    if j != Join(dir, k0) {
      PrefixMapOnly(dir, m - {k0}, j);
    }
  }

  /** The joined table holds exactly the joined sub-keys. */
  lemma PrefixMapKeys<V>(dir: string, m: map<string, V>, j: string)
    ensures j in PrefixMap(dir, m) <==> exists k | k in m :: j == Join(dir, k)
  {
    if j in PrefixMap(dir, m) {
      PrefixMapOnly(dir, m, j);
    }
    if k :| k in m && j == Join(dir, k) {
      PrefixMapAt(dir, m, k);
    }
  }

  /** A table with exactly the joined sub-keys, each with its sub-key's value, is the joined table. */
  lemma PrefixMapUnique<V>(dir: string, m: map<string, V>, c: map<string, V>)
    requires forall k | k in m :: Join(dir, k) in c && c[Join(dir, k)] == m[k]
    requires forall j | j in c :: exists k | k in m :: j == Join(dir, k)
    ensures c == PrefixMap(dir, m)
  {
    forall j | j in PrefixMap(dir, m)
      ensures j in c && c[j] == PrefixMap(dir, m)[j]
    {
      PrefixMapOnly(dir, m, j);
      var k :| k in m && j == Join(dir, k);
      PrefixMapAt(dir, m, k);
    }
    forall j | j in c
      ensures j in PrefixMap(dir, m)
    {
      var k :| k in m && j == Join(dir, k);
      PrefixMapAt(dir, m, k);
    }
  }

  /** The dict comprehension the scanner evaluates; it builds the joined table. */
  function JoinKeys<V>(dir: string, m: map<string, V>): (r: map<string, V>)
    ensures r == PrefixMap(dir, m)
  {
    JoinInjectiveRight(dir);
    var c := map k | k in m :: Join(dir, k) := m[k];
    PrefixMapUnique(dir, m, c);
    c
  }

  /** The sub-directory's directory table, in its own order, with its keys joined onto the sub-directory's name. */
  function PrefixDirs(dir: string, ds: seq<(string, nat)>): (r: seq<(string, nat)>)
    ensures |r| == |ds|
    ensures forall i :: 0 <= i < |ds| ==> r[i] == (Join(dir, ds[i].0), ds[i].1)
  {
    seq(|ds|, i requires 0 <= i < |ds| => (Join(dir, ds[i].0), ds[i].1))
  }

  /** What visiting one entry of a listing at depth `level` does to the tables. */
  ghost function Visit(cfg: Config, acc: Snapshot, e: Entry, level: nat): Snapshot
    decreases e
  {
    match e
    case File(name, lastMod) =>
      var (stem, ext) := SplitExt(name);
      if IsAudioExt(ext) then acc.(music := acc.music[stem := Audio(ext, lastMod)])
      else acc.(rest := acc.rest[name := lastMod])
    case Folder(name, children) =>
      if name in cfg.dirsToIgnore then acc
      else
        var sub := Scan(cfg, children, level + 1);
        Snapshot(acc.music + PrefixMap(name, sub.music),
                 acc.rest + PrefixMap(name, sub.rest),
                 acc.dirs + [(name, level)] + PrefixDirs(name, sub.dirs))
  }

  /** The tables after the first `n` entries of a listing at depth `level` have been visited. */
  ghost function ScanUpTo(cfg: Config, entries: seq<Entry>, level: nat, n: nat): Snapshot
    requires n <= |entries|
    decreases entries, n
  {
    if n == 0 then Snapshot(map[], map[], [])
    else Visit(cfg, ScanUpTo(cfg, entries, level, n - 1), entries[n - 1], level)
  }

  /** The tables after `n` entries are those after `n - 1` entries with the last of them visited. */
  lemma ScanUpToStep(cfg: Config, entries: seq<Entry>, level: nat, n: nat)
    requires 0 < n <= |entries|
    ensures ScanUpTo(cfg, entries, level, n) == Visit(cfg, ScanUpTo(cfg, entries, level, n - 1), entries[n - 1], level)
  {
  }

  /** `get_files_dirs(path, level)` for the listing of `path`. */
  ghost function Scan(cfg: Config, entries: seq<Entry>, level: nat): Snapshot
    decreases entries, |entries| + 1
  {
    ScanUpTo(cfg, entries, level, |entries|)
  }

  /** Visiting a file puts it into the audio table under its name without extension, or into the other-file table. */
  lemma VisitFile(cfg: Config, acc: Snapshot, name: string, lastMod: int, level: nat)
    ensures var (stem, ext) := SplitExt(name);
            Visit(cfg, acc, File(name, lastMod), level) ==
            if IsAudioExt(ext) then acc.(music := acc.music[stem := Audio(ext, lastMod)])
            else acc.(rest := acc.rest[name := lastMod])
  {
  }

  /** Visiting a sub-directory that is not ignored puts its own scan under its name. */
  lemma VisitFolder(cfg: Config, acc: Snapshot, name: string, children: seq<Entry>, level: nat)
    requires name !in cfg.dirsToIgnore
    ensures Visit(cfg, acc, Folder(name, children), level) ==
            Snapshot(acc.music + PrefixMap(name, Scan(cfg, children, level + 1).music),
                     acc.rest + PrefixMap(name, Scan(cfg, children, level + 1).rest),
                     acc.dirs + [(name, level)] + PrefixDirs(name, Scan(cfg, children, level + 1).dirs))
  {
  }

  /**
    `get_files_dirs`: one pass over the listing, recursing into every
    sub-directory that is not ignored and merging its tables under its name.
   */
  method GetFilesDirs(cfg: Config, entries: seq<Entry>, level: nat)
      returns (music: map<string, Audio>, rest: map<string, int>, dirs: seq<(string, nat)>)
    ensures Snapshot(music, rest, dirs) == Scan(cfg, entries, level)
    decreases entries
  {
    music, rest, dirs := map[], map[], [];
    var i := 0;
    while i < |entries|
      invariant i <= |entries|
      invariant Snapshot(music, rest, dirs) == ScanUpTo(cfg, entries, level, i)
    {
      ghost var acc := Snapshot(music, rest, dirs);
      ScanUpToStep(cfg, entries, level, i + 1);
      match entries[i] {
        case Folder(name, children) =>
          if name !in cfg.dirsToIgnore {
            dirs := dirs + [(name, level)];
            var subMusic, subRest, subDirs := GetFilesDirs(cfg, children, level + 1);
            music := music + JoinKeys(name, subMusic);
            rest := rest + JoinKeys(name, subRest);
            dirs := dirs + PrefixDirs(name, subDirs);
            VisitFolder(cfg, acc, name, children, level);
          }
        case File(name, lastMod) =>
          var (stem, ext) := SplitExt(name);
          if IsAudioExt(ext) {
            music := music[stem := Audio(ext, lastMod)];
          } else {
            rest := rest[name := lastMod];
          }
          VisitFile(cfg, acc, name, lastMod, level);
      }
      i := i + 1;
    }
  }

  // ---------------------------------------------------------------------------
  // Which keys a scan produces

  /** The keys of a directory table. */
  function DirKeys(ds: seq<(string, nat)>): (r: set<string>)
    ensures forall i :: 0 <= i < |ds| ==> ds[i].0 in r
    ensures forall k | k in r :: exists i :: 0 <= i < |ds| && ds[i].0 == k
  {
    set i | 0 <= i < |ds| :: ds[i].0
  }

  /** The entry `e` of a listing at depth `level` puts `k` into the audio table. */
  ghost predicate MusicFrom(cfg: Config, e: Entry, level: nat, k: string)
  {
    match e
    case File(name, _) => IsAudioExt(SplitExt(name).1) && SplitExt(name).0 == k
    case Folder(name, children) =>
      name !in cfg.dirsToIgnore && exists j | j in Scan(cfg, children, level + 1).music :: k == Join(name, j)
  }

  /** The entry `e` of a listing at depth `level` puts `k` into the other-file table. */
  ghost predicate RestFrom(cfg: Config, e: Entry, level: nat, k: string)
  {
    match e
    case File(name, _) => !IsAudioExt(SplitExt(name).1) && name == k
    case Folder(name, children) =>
      name !in cfg.dirsToIgnore && exists j | j in Scan(cfg, children, level + 1).rest :: k == Join(name, j)
  }

  /** The entry `e` of a listing at depth `level` puts `k` into the directory table. */
  ghost predicate DirFrom(cfg: Config, e: Entry, level: nat, k: string)
  {
    match e
    case File(_, _) => false
    case Folder(name, children) =>
      name !in cfg.dirsToIgnore &&
      (k == name || exists j | j in DirKeys(Scan(cfg, children, level + 1).dirs) :: k == Join(name, j))
  }

  lemma VisitMusicKeys(cfg: Config, acc: Snapshot, e: Entry, level: nat, k: string)
    ensures k in Visit(cfg, acc, e, level).music <==> k in acc.music || MusicFrom(cfg, e, level, k)
  {
    if e.Folder? && e.name !in cfg.dirsToIgnore {
      PrefixMapKeys(e.name, Scan(cfg, e.entries, level + 1).music, k);
    }
  }

  lemma VisitRestKeys(cfg: Config, acc: Snapshot, e: Entry, level: nat, k: string)
    ensures k in Visit(cfg, acc, e, level).rest <==> k in acc.rest || RestFrom(cfg, e, level, k)
  {
    if e.Folder? && e.name !in cfg.dirsToIgnore {
      PrefixMapKeys(e.name, Scan(cfg, e.entries, level + 1).rest, k);
    }
  }

  /** The keys of a directory table built from three parts. */
  lemma DirKeysOfAppend(a: seq<(string, nat)>, name: string, level: nat, sub: seq<(string, nat)>, k: string)
    ensures k in DirKeys(a + [(name, level)] + PrefixDirs(name, sub)) <==>
            k in DirKeys(a) || k == name || exists j | j in DirKeys(sub) :: k == Join(name, j)
  {
    var ds := a + [(name, level)] + PrefixDirs(name, sub);
    if k in DirKeys(ds) {
      var i :| 0 <= i < |ds| && ds[i].0 == k;
      if i > |a| {
        assert sub[i - |a| - 1].0 in DirKeys(sub);
      }
    }
    if j :| j in DirKeys(sub) && k == Join(name, j) {
      var i :| 0 <= i < |sub| && sub[i].0 == j;
      assert ds[|a| + 1 + i].0 == k;
    }
    if k in DirKeys(a) {
      var i :| 0 <= i < |a| && a[i].0 == k;
      assert ds[i].0 == k;
    }
    assert ds[|a|].0 == name;
  }

  lemma VisitDirKeys(cfg: Config, acc: Snapshot, e: Entry, level: nat, k: string)
    ensures k in DirKeys(Visit(cfg, acc, e, level).dirs) <==> k in DirKeys(acc.dirs) || DirFrom(cfg, e, level, k)
  {
    if e.Folder? && e.name !in cfg.dirsToIgnore {
      DirKeysOfAppend(acc.dirs, e.name, level, Scan(cfg, e.entries, level + 1).dirs, k);
    }
  }

  lemma ScanUpToMusicStep(cfg: Config, entries: seq<Entry>, level: nat, n: nat, k: string)
    requires 0 < n <= |entries|
    ensures k in ScanUpTo(cfg, entries, level, n).music <==> k in ScanUpTo(cfg, entries, level, n - 1).music || MusicFrom(cfg, entries[n - 1], level, k)
  {
    ScanUpToStep(cfg, entries, level, n);
    VisitMusicKeys(cfg, ScanUpTo(cfg, entries, level, n - 1), entries[n - 1], level, k);
  }

  /** Some index below `n` satisfies `p`, counted down from `n - 1`. */
  ghost predicate SomeBelow(p: nat -> bool, n: nat)
  {
    n > 0 && (SomeBelow(p, n - 1) || p(n - 1))
  }

  lemma {:induction false} SomeBelowExists(p: nat -> bool, n: nat)
    ensures SomeBelow(p, n) <==> exists i | 0 <= i < n :: p(i)
  {
    if n > 0 {
      SomeBelowExists(p, n - 1);
    }
  }

  /** Whether the entry at each index puts `k` into the audio table. */
  ghost function MusicFromAt(cfg: Config, entries: seq<Entry>, level: nat, k: string): nat -> bool
  {
    (i: nat) => i < |entries| && MusicFrom(cfg, entries[i], level, k)
  }

  /** One of the first `n` entries puts `k` into the audio table. */
  ghost predicate MusicFromAny(cfg: Config, entries: seq<Entry>, level: nat, n: nat, k: string)
    requires n <= |entries|
  {
    SomeBelow(MusicFromAt(cfg, entries, level, k), n)
  }

  lemma {:induction false} ScanUpToMusicAny(cfg: Config, entries: seq<Entry>, level: nat, n: nat, k: string)
    requires n <= |entries|
    ensures k in ScanUpTo(cfg, entries, level, n).music <==> MusicFromAny(cfg, entries, level, n, k)
  {
    if n > 0 {
      ScanUpToMusicAny(cfg, entries, level, n - 1, k);
      ScanUpToMusicStep(cfg, entries, level, n, k);
    }
  }

  lemma ScanUpToMusicKeys(cfg: Config, entries: seq<Entry>, level: nat, n: nat, k: string)
    requires n <= |entries|
    ensures k in ScanUpTo(cfg, entries, level, n).music <==> exists i | 0 <= i < n :: MusicFrom(cfg, entries[i], level, k)
  {
    ScanUpToMusicAny(cfg, entries, level, n, k);
    SomeBelowExists(MusicFromAt(cfg, entries, level, k), n);
    if i :| 0 <= i < n && MusicFrom(cfg, entries[i], level, k) {
      assert MusicFromAt(cfg, entries, level, k)(i);
    }
  }

  lemma ScanUpToRestStep(cfg: Config, entries: seq<Entry>, level: nat, n: nat, k: string)
    requires 0 < n <= |entries|
    ensures k in ScanUpTo(cfg, entries, level, n).rest <==> k in ScanUpTo(cfg, entries, level, n - 1).rest || RestFrom(cfg, entries[n - 1], level, k)
  {
    ScanUpToStep(cfg, entries, level, n);
    VisitRestKeys(cfg, ScanUpTo(cfg, entries, level, n - 1), entries[n - 1], level, k);
  }

  /** Whether the entry at each index puts `k` into the other-file table. */
  ghost function RestFromAt(cfg: Config, entries: seq<Entry>, level: nat, k: string): nat -> bool
  {
    (i: nat) => i < |entries| && RestFrom(cfg, entries[i], level, k)
  }

  /** One of the first `n` entries puts `k` into the other-file table. */
  ghost predicate RestFromAny(cfg: Config, entries: seq<Entry>, level: nat, n: nat, k: string)
    requires n <= |entries|
  {
    SomeBelow(RestFromAt(cfg, entries, level, k), n)
  }

  lemma {:induction false} ScanUpToRestAny(cfg: Config, entries: seq<Entry>, level: nat, n: nat, k: string)
    requires n <= |entries|
    ensures k in ScanUpTo(cfg, entries, level, n).rest <==> RestFromAny(cfg, entries, level, n, k)
  {
    if n > 0 {
      ScanUpToRestAny(cfg, entries, level, n - 1, k);
      ScanUpToRestStep(cfg, entries, level, n, k);
    }
  }

  lemma ScanUpToRestKeys(cfg: Config, entries: seq<Entry>, level: nat, n: nat, k: string)
    requires n <= |entries|
    ensures k in ScanUpTo(cfg, entries, level, n).rest <==> exists i | 0 <= i < n :: RestFrom(cfg, entries[i], level, k)
  {
    ScanUpToRestAny(cfg, entries, level, n, k);
    SomeBelowExists(RestFromAt(cfg, entries, level, k), n);
    if i :| 0 <= i < n && RestFrom(cfg, entries[i], level, k) {
      assert RestFromAt(cfg, entries, level, k)(i);
    }
  }

  lemma ScanUpToDirStep(cfg: Config, entries: seq<Entry>, level: nat, n: nat, k: string)
    requires 0 < n <= |entries|
    ensures k in DirKeys(ScanUpTo(cfg, entries, level, n).dirs) <==> k in DirKeys(ScanUpTo(cfg, entries, level, n - 1).dirs) || DirFrom(cfg, entries[n - 1], level, k)
  {
    ScanUpToStep(cfg, entries, level, n);
    VisitDirKeys(cfg, ScanUpTo(cfg, entries, level, n - 1), entries[n - 1], level, k);
  }

  /** Whether the entry at each index puts `k` into the directory table. */
  ghost function DirFromAt(cfg: Config, entries: seq<Entry>, level: nat, k: string): nat -> bool
  {
    (i: nat) => i < |entries| && DirFrom(cfg, entries[i], level, k)
  }

  /** One of the first `n` entries puts `k` into the directory table. */
  ghost predicate DirFromAny(cfg: Config, entries: seq<Entry>, level: nat, n: nat, k: string)
    requires n <= |entries|
  {
    SomeBelow(DirFromAt(cfg, entries, level, k), n)
  }

  lemma {:induction false} ScanUpToDirAny(cfg: Config, entries: seq<Entry>, level: nat, n: nat, k: string)
    requires n <= |entries|
    ensures k in DirKeys(ScanUpTo(cfg, entries, level, n).dirs) <==> DirFromAny(cfg, entries, level, n, k)
  {
    if n > 0 {
      ScanUpToDirAny(cfg, entries, level, n - 1, k);
      ScanUpToDirStep(cfg, entries, level, n, k);
    }
  }

  lemma ScanUpToDirKeys(cfg: Config, entries: seq<Entry>, level: nat, n: nat, k: string)
    requires n <= |entries|
    ensures k in DirKeys(ScanUpTo(cfg, entries, level, n).dirs) <==> exists i | 0 <= i < n :: DirFrom(cfg, entries[i], level, k)
  {
    ScanUpToDirAny(cfg, entries, level, n, k);
    SomeBelowExists(DirFromAt(cfg, entries, level, k), n);
    if i :| 0 <= i < n && DirFrom(cfg, entries[i], level, k) {
      assert DirFromAt(cfg, entries, level, k)(i);
    }
  }

  /**
    Every key of a scan comes from one entry of the listing: an audio file under
    its name without the extension, another file under its name, a directory
    that is not ignored under its name, and every key of a sub-directory's own
    scan joined onto the sub-directory's name; and every such key is there.
   */
  lemma ScanKeys(cfg: Config, entries: seq<Entry>, level: nat, k: string)
    ensures k in Scan(cfg, entries, level).music <==> exists i | 0 <= i < |entries| :: MusicFrom(cfg, entries[i], level, k)
    ensures k in Scan(cfg, entries, level).rest <==> exists i | 0 <= i < |entries| :: RestFrom(cfg, entries[i], level, k)
    ensures k in DirKeys(Scan(cfg, entries, level).dirs) <==> exists i | 0 <= i < |entries| :: DirFrom(cfg, entries[i], level, k)
  {
    ScanUpToMusicKeys(cfg, entries, level, |entries|, k);
    ScanUpToRestKeys(cfg, entries, level, |entries|, k);
    ScanUpToDirKeys(cfg, entries, level, |entries|, k);
  }

  // ---------------------------------------------------------------------------
  // What a scan stores under each key

  /** No two audio files of one listing share a name without extension (a flac and an mp3 of the same song, say). */
  predicate AudioStemsDistinct(entries: seq<Entry>)
  {
    forall i, j | 0 <= i < j < |entries| && entries[i].File? && entries[j].File? &&
                  IsAudioExt(SplitExt(entries[i].name).1) && IsAudioExt(SplitExt(entries[j].name).1) ::
      SplitExt(entries[i].name).0 != SplitExt(entries[j].name).0
  }

  /** An audio file's name without its extension is still an entry name. */
  lemma StemIsName(name: string)
    requires IsName(name) && IsAudioExt(SplitExt(name).1)
    ensures IsName(SplitExt(name).0)
  {
    var (stem, ext) := SplitExt(name);
    assert |Lower(ext)| == |ext|;
    assert forall m :: 0 <= m < |stem| ==> stem[m] == name[m];
  }

  lemma VisitKeepsMusic(cfg: Config, acc: Snapshot, e: Entry, level: nat, k: string)
    requires k in acc.music && !MusicFrom(cfg, e, level, k)
    ensures k in Visit(cfg, acc, e, level).music && Visit(cfg, acc, e, level).music[k] == acc.music[k]
  {
    if e.Folder? && e.name !in cfg.dirsToIgnore {
      PrefixMapKeys(e.name, Scan(cfg, e.entries, level + 1).music, k);
    }
  }

  lemma VisitKeepsRest(cfg: Config, acc: Snapshot, e: Entry, level: nat, k: string)
    requires k in acc.rest && !RestFrom(cfg, e, level, k)
    ensures k in Visit(cfg, acc, e, level).rest && Visit(cfg, acc, e, level).rest[k] == acc.rest[k]
  {
    if e.Folder? && e.name !in cfg.dirsToIgnore {
      PrefixMapKeys(e.name, Scan(cfg, e.entries, level + 1).rest, k);
    }
  }

  /** Entries that do not produce a key leave its audio-table value alone. */
  lemma {:induction false} ScanUpToKeepsMusic(cfg: Config, entries: seq<Entry>, level: nat, from: nat, n: nat, k: string)
    requires from <= n <= |entries| && k in ScanUpTo(cfg, entries, level, from).music
    requires forall i | from <= i < n :: !MusicFrom(cfg, entries[i], level, k)
    ensures k in ScanUpTo(cfg, entries, level, n).music
    ensures ScanUpTo(cfg, entries, level, n).music[k] == ScanUpTo(cfg, entries, level, from).music[k]
    decreases n
  {
    if from < n {
      ScanUpToKeepsMusic(cfg, entries, level, from, n - 1, k);
      VisitKeepsMusic(cfg, ScanUpTo(cfg, entries, level, n - 1), entries[n - 1], level, k);
    }
  }

  /** Entries that do not produce a key leave its other-file-table value alone. */
  lemma {:induction false} ScanUpToKeepsRest(cfg: Config, entries: seq<Entry>, level: nat, from: nat, n: nat, k: string)
    requires from <= n <= |entries| && k in ScanUpTo(cfg, entries, level, from).rest
    requires forall i | from <= i < n :: !RestFrom(cfg, entries[i], level, k)
    ensures k in ScanUpTo(cfg, entries, level, n).rest
    ensures ScanUpTo(cfg, entries, level, n).rest[k] == ScanUpTo(cfg, entries, level, from).rest[k]
    decreases n
  {
    if from < n {
      ScanUpToKeepsRest(cfg, entries, level, from, n - 1, k);
      VisitKeepsRest(cfg, ScanUpTo(cfg, entries, level, n - 1), entries[n - 1], level, k);
    }
  }

  /** An entry of a well-formed listing that produces a key which is an entry name is a file. */
  lemma FromNameIsFile(cfg: Config, e: Entry, level: nat, k: string)
    requires IsName(k) && (MusicFrom(cfg, e, level, k) || RestFrom(cfg, e, level, k))
    ensures e.File?
  {
    if e.Folder? {
      forall j: string
        ensures Join(e.name, j) != k
      {
        JoinIsNotName(e.name, j, k);
      }
    }
  }

  /**
    An audio file is stored under its name without the extension, with the
    extension as spelled and its modification time, when no other audio file
    of its directory has the same name without extension.
   */
  lemma ScanAudioFile(cfg: Config, entries: seq<Entry>, level: nat, i: nat)
    requires WellFormed(entries) && AudioStemsDistinct(entries)
    requires i < |entries| && entries[i].File? && IsAudioExt(SplitExt(entries[i].name).1)
    ensures SplitExt(entries[i].name).0 in Scan(cfg, entries, level).music
    ensures Scan(cfg, entries, level).music[SplitExt(entries[i].name).0] ==
            Audio(SplitExt(entries[i].name).1, entries[i].lastMod)
  {
    var stem := SplitExt(entries[i].name).0;
    StemIsName(entries[i].name);
    forall j | i + 1 <= j < |entries|
      ensures !MusicFrom(cfg, entries[j], level, stem)
    {
      if MusicFrom(cfg, entries[j], level, stem) {
        FromNameIsFile(cfg, entries[j], level, stem);
      }
    }
    ScanUpToKeepsMusic(cfg, entries, level, i + 1, |entries|, stem);
  }

  /** Any other file is stored under its full name with its modification time. */
  lemma ScanOtherFile(cfg: Config, entries: seq<Entry>, level: nat, i: nat)
    requires WellFormed(entries)
    requires i < |entries| && entries[i].File? && !IsAudioExt(SplitExt(entries[i].name).1)
    ensures entries[i].name in Scan(cfg, entries, level).rest
    ensures Scan(cfg, entries, level).rest[entries[i].name] == entries[i].lastMod
  {
    var name := entries[i].name;
    forall j | i + 1 <= j < |entries|
      ensures !RestFrom(cfg, entries[j], level, name)
    {
      if RestFrom(cfg, entries[j], level, name) {
        FromNameIsFile(cfg, entries[j], level, name);
      }
    }
    ScanUpToKeepsRest(cfg, entries, level, i + 1, |entries|, name);
  }

  /** In a well-formed listing, a key below one sub-directory comes from no other entry. */
  lemma OnlyFolderGivesJoin(cfg: Config, entries: seq<Entry>, level: nat, i: nat, j: nat, k: string)
    requires WellFormed(entries) && i < |entries| && j < |entries| && i != j && entries[i].Folder?
    ensures !MusicFrom(cfg, entries[j], level, Join(entries[i].name, k))
    ensures !RestFrom(cfg, entries[j], level, Join(entries[i].name, k))
  {
    var key := Join(entries[i].name, k);
    match entries[j]
    case File(name, _) =>
      JoinIsNotName(entries[i].name, k, name);
      if IsAudioExt(SplitExt(name).1) {
        StemIsName(name);
        JoinIsNotName(entries[i].name, k, SplitExt(name).0);
      }
    case Folder(name, children) =>
      forall x: string
        ensures Join(name, x) != key
      {
        if Join(name, x) == key {
          JoinInjective(name, x, entries[i].name, k);
        }
      }
  }

  /** Right after a sub-directory that is not ignored, its audio and other-file tables are in place under its name. */
  lemma ScanUpToFolderFile(cfg: Config, entries: seq<Entry>, level: nat, i: nat, k: string)
    requires i < |entries| && entries[i].Folder? && entries[i].name !in cfg.dirsToIgnore
    ensures k in Scan(cfg, entries[i].entries, level + 1).music ==>
              Join(entries[i].name, k) in ScanUpTo(cfg, entries, level, i + 1).music &&
              ScanUpTo(cfg, entries, level, i + 1).music[Join(entries[i].name, k)] == Scan(cfg, entries[i].entries, level + 1).music[k]
    ensures k in Scan(cfg, entries[i].entries, level + 1).rest ==>
              Join(entries[i].name, k) in ScanUpTo(cfg, entries, level, i + 1).rest &&
              ScanUpTo(cfg, entries, level, i + 1).rest[Join(entries[i].name, k)] == Scan(cfg, entries[i].entries, level + 1).rest[k]
  {
    var sub := Scan(cfg, entries[i].entries, level + 1);
    ScanUpToStep(cfg, entries, level, i + 1);
    VisitFolder(cfg, ScanUpTo(cfg, entries, level, i), entries[i].name, entries[i].entries, level);
    if k in sub.music {
      PrefixMapAt(entries[i].name, sub.music, k);
    }
    if k in sub.rest {
      PrefixMapAt(entries[i].name, sub.rest, k);
    }
  }

  /**
    The audio and other-file tables of a sub-directory that is not ignored
    reappear in its parent's tables, every key joined onto the
    sub-directory's name.
   */
  lemma ScanFolderFiles(cfg: Config, entries: seq<Entry>, level: nat, i: nat)
    requires WellFormed(entries) && i < |entries| && entries[i].Folder? && entries[i].name !in cfg.dirsToIgnore
    ensures forall k | k in Scan(cfg, entries[i].entries, level + 1).music ::
              Join(entries[i].name, k) in Scan(cfg, entries, level).music &&
              Scan(cfg, entries, level).music[Join(entries[i].name, k)] == Scan(cfg, entries[i].entries, level + 1).music[k]
    ensures forall k | k in Scan(cfg, entries[i].entries, level + 1).rest ::
              Join(entries[i].name, k) in Scan(cfg, entries, level).rest &&
              Scan(cfg, entries, level).rest[Join(entries[i].name, k)] == Scan(cfg, entries[i].entries, level + 1).rest[k]
  {
    var sub := Scan(cfg, entries[i].entries, level + 1);
    forall k | k in sub.music
      ensures Join(entries[i].name, k) in Scan(cfg, entries, level).music
      ensures Scan(cfg, entries, level).music[Join(entries[i].name, k)] == sub.music[k]
    {
      forall j | i + 1 <= j < |entries|
        ensures !MusicFrom(cfg, entries[j], level, Join(entries[i].name, k))
      {
        OnlyFolderGivesJoin(cfg, entries, level, i, j, k);
      }
      ScanUpToFolderFile(cfg, entries, level, i, k);
      ScanUpToKeepsMusic(cfg, entries, level, i + 1, |entries|, Join(entries[i].name, k));
    }
    forall k | k in sub.rest
      ensures Join(entries[i].name, k) in Scan(cfg, entries, level).rest
      ensures Scan(cfg, entries, level).rest[Join(entries[i].name, k)] == sub.rest[k]
    {
      forall j | i + 1 <= j < |entries|
        ensures !RestFrom(cfg, entries[j], level, Join(entries[i].name, k))
      {
        OnlyFolderGivesJoin(cfg, entries, level, i, j, k);
      }
      ScanUpToFolderFile(cfg, entries, level, i, k);
      ScanUpToKeepsRest(cfg, entries, level, i + 1, |entries|, Join(entries[i].name, k));
    }
  }

  // ---------------------------------------------------------------------------
  // The directory table

  /** No key occurs twice, so appending is what inserting into the dict does. */
  predicate KeysDistinct(ds: seq<(string, nat)>)
  {
    forall i, j | 0 <= i < j < |ds| :: ds[i].0 != ds[j].0
  }

  /** Every directory comes after each directory above it. */
  predicate AncestorsFirst(ds: seq<(string, nat)>)
  {
    forall i, j | 0 <= i < |ds| && 0 <= j < |ds| && IsAncestor(ds[i].0, ds[j].0) :: i < j
  }

  /** Every directory above a listed directory is listed too. */
  ghost predicate AncestorsListed(ds: seq<(string, nat)>)
  {
    forall j, p | 0 <= j < |ds| && IsAncestor(p, ds[j].0) :: p in DirKeys(ds)
  }

  /** Each directory's depth is `level` plus the number of directories above it. */
  predicate DepthsMatch(ds: seq<(string, nat)>, level: nat)
  {
    forall i | 0 <= i < |ds| :: ds[i].1 == level + |Components(ds[i].0)| - 1
  }

  /** Every key a sub-directory puts into the tables lies under the sub-directory's name. */
  lemma FromFolderHead(cfg: Config, e: Entry, level: nat, k: string)
    requires IsName(e.name) && DirFrom(cfg, e, level, k)
    ensures Head(k) == e.name
  {
    if k == e.name {
      NameComponents(k);
    } else {
      var j :| j in DirKeys(Scan(cfg, e.entries, level + 1).dirs) && k == Join(e.name, j);
      JoinComponents(e.name, j);
    }
  }

  /** The directory keys after `n` entries lie under sub-directories among the first `n` entries. */
  lemma ScanUpToDirHeads(cfg: Config, entries: seq<Entry>, level: nat, n: nat)
    requires WellFormed(entries) && n < |entries|
    ensures forall k | k in DirKeys(ScanUpTo(cfg, entries, level, n).dirs) :: Head(k) != entries[n].name
  {
    forall k | k in DirKeys(ScanUpTo(cfg, entries, level, n).dirs)
      ensures Head(k) != entries[n].name
    {
      ScanUpToDirKeys(cfg, entries, level, n, k);
      var j :| 0 <= j < n && DirFrom(cfg, entries[j], level, k);
      FromFolderHead(cfg, entries[j], level, k);
    }
  }

  lemma StepKeysDistinct(acc: seq<(string, nat)>, name: string, level: nat, sub: seq<(string, nat)>)
    requires KeysDistinct(acc) && KeysDistinct(sub) && IsName(name)
    requires forall k | k in DirKeys(acc) :: Head(k) != name
    ensures KeysDistinct(acc + [(name, level)] + PrefixDirs(name, sub))
  {
    var ds := acc + [(name, level)] + PrefixDirs(name, sub);
    var a := |acc|;
    forall i, j | 0 <= i < j < |ds|
      ensures ds[i].0 != ds[j].0
    {
      if i < a && j == a {
        NameComponents(name);
      } else if i < a && j > a {
        JoinComponents(name, sub[j - a - 1].0);
      } else if i == a {
        JoinIsNotName(name, sub[j - a - 1].0, name);
      } else if i > a {
        if ds[i].0 == ds[j].0 {
          JoinInjective(name, sub[i - a - 1].0, name, sub[j - a - 1].0);
        }
      }
    }
  }

  lemma StepAncestorsFirst(acc: seq<(string, nat)>, name: string, level: nat, sub: seq<(string, nat)>)
    requires AncestorsFirst(acc) && AncestorsFirst(sub) && IsName(name)
    requires forall k | k in DirKeys(acc) :: Head(k) != name
    ensures AncestorsFirst(acc + [(name, level)] + PrefixDirs(name, sub))
  {
    var ds := acc + [(name, level)] + PrefixDirs(name, sub);
    var a := |acc|;
    forall i, j | 0 <= i < |ds| && 0 <= j < |ds| && IsAncestor(ds[i].0, ds[j].0)
      ensures i < j
    {
      if j == a {
        NoAncestorOfName(ds[i].0, name);
      } else if i >= a && j < a {
        AncestorSameHead(ds[i].0, ds[j].0);
        if i == a {
          NameComponents(name);
        } else {
          JoinComponents(name, sub[i - a - 1].0);
        }
      } else if i > a && j > a {
        JoinAncestorInv(name, sub[i - a - 1].0, sub[j - a - 1].0);
      }
    }
  }

  lemma StepAncestorsListed(acc: seq<(string, nat)>, name: string, level: nat, sub: seq<(string, nat)>)
    requires AncestorsListed(acc) && AncestorsListed(sub) && IsName(name)
    ensures AncestorsListed(acc + [(name, level)] + PrefixDirs(name, sub))
  {
    var ds := acc + [(name, level)] + PrefixDirs(name, sub);
    var a := |acc|;
    forall j, p | 0 <= j < |ds| && IsAncestor(p, ds[j].0)
      ensures p in DirKeys(ds)
    {
      DirKeysOfAppend(acc, name, level, sub, p);
      if j == a {
        NoAncestorOfName(p, name);
      } else if j > a {
        var b := sub[j - a - 1].0;
        AncestorOfJoin(p, name, b);
        if p != name {
          assert p[|name| + 1..] in DirKeys(sub);
        }
      }
    }
  }

  lemma StepDepthsMatch(acc: seq<(string, nat)>, name: string, level: nat, sub: seq<(string, nat)>)
    requires DepthsMatch(acc, level) && DepthsMatch(sub, level + 1) && IsName(name)
    ensures DepthsMatch(acc + [(name, level)] + PrefixDirs(name, sub), level)
  {
    var ds := acc + [(name, level)] + PrefixDirs(name, sub);
    var a := |acc|;
    forall i | 0 <= i < |ds|
      ensures ds[i].1 == level + |Components(ds[i].0)| - 1
    {
      if i == a {
        NameComponents(name);
      } else if i > a {
        JoinComponents(name, sub[i - a - 1].0);
      }
    }
  }

  lemma {:induction false} ScanUpToDirs(cfg: Config, entries: seq<Entry>, level: nat, n: nat)
    requires WellFormed(entries) && n <= |entries|
    ensures KeysDistinct(ScanUpTo(cfg, entries, level, n).dirs)
    ensures AncestorsFirst(ScanUpTo(cfg, entries, level, n).dirs)
    ensures AncestorsListed(ScanUpTo(cfg, entries, level, n).dirs)
    ensures DepthsMatch(ScanUpTo(cfg, entries, level, n).dirs, level)
    decreases entries, n
  {
    if n > 0 {
      ScanUpToDirs(cfg, entries, level, n - 1);
      var acc := ScanUpTo(cfg, entries, level, n - 1).dirs;
      match entries[n - 1]
      case File(_, _) =>
      case Folder(name, children) =>
        if name !in cfg.dirsToIgnore {
          ScanDirs(cfg, children, level + 1);
          var sub := Scan(cfg, children, level + 1).dirs;
          ScanUpToDirHeads(cfg, entries, level, n - 1);
          StepKeysDistinct(acc, name, level, sub);
          StepAncestorsFirst(acc, name, level, sub);
          StepAncestorsListed(acc, name, level, sub);
          StepDepthsMatch(acc, name, level, sub);
        }
    }
  }

  /**
    The directory table of a well-formed listing: no key twice, every
    directory after every directory above it, every directory above a listed
    one listed too, and each depth the number of directories above plus the
    starting level.
   */
  lemma {:induction false} ScanDirs(cfg: Config, entries: seq<Entry>, level: nat)
    requires WellFormed(entries)
    ensures KeysDistinct(Scan(cfg, entries, level).dirs)
    ensures AncestorsFirst(Scan(cfg, entries, level).dirs)
    ensures AncestorsListed(Scan(cfg, entries, level).dirs)
    ensures DepthsMatch(Scan(cfg, entries, level).dirs, level)
    decreases entries, |entries| + 1
  {
    ScanUpToDirs(cfg, entries, level, |entries|);
  }

  /** Every directory above a file of the tables is in the directory table. */
  lemma {:induction false} ScanFileAncestors(cfg: Config, entries: seq<Entry>, level: nat, k: string, p: string)
    requires WellFormed(entries)
    requires (k in Scan(cfg, entries, level).music || k in Scan(cfg, entries, level).rest) && IsAncestor(p, k)
    ensures p in DirKeys(Scan(cfg, entries, level).dirs)
    decreases entries
  {
    ScanKeys(cfg, entries, level, k);
    var i :| 0 <= i < |entries| && (MusicFrom(cfg, entries[i], level, k) || RestFrom(cfg, entries[i], level, k));
    ScanKeys(cfg, entries, level, p);
    match entries[i]
    case File(name, _) =>
      if IsAudioExt(SplitExt(name).1) {
        StemIsName(name);
      }
      NoAncestorOfName(p, k);
    case Folder(name, children) =>
      var sub := Scan(cfg, children, level + 1);
      var j :| (j in sub.music || j in sub.rest) && k == Join(name, j);
      AncestorOfJoin(p, name, j);
      if p != name {
        var q := p[|name| + 1..];
        ScanFileAncestors(cfg, children, level + 1, j, q);
        assert DirFrom(cfg, entries[i], level, p);
      } else {
        assert DirFrom(cfg, entries[i], level, p);
      }
  }

  /** Visiting one entry only appends to the directory table. */
  lemma VisitDirsExtend(cfg: Config, acc: Snapshot, e: Entry, level: nat)
    ensures acc.dirs <= Visit(cfg, acc, e, level).dirs
  {
    if e.Folder? && e.name !in cfg.dirsToIgnore {
      var sub := Scan(cfg, e.entries, level + 1);
      assert Visit(cfg, acc, e, level).dirs == acc.dirs + ([(e.name, level)] + PrefixDirs(e.name, sub.dirs));
    }
  }

  lemma ScanUpToDirsStep(cfg: Config, entries: seq<Entry>, level: nat, n: nat)
    requires 0 < n <= |entries|
    ensures ScanUpTo(cfg, entries, level, n - 1).dirs <= ScanUpTo(cfg, entries, level, n).dirs
  {
    var prev := ScanUpTo(cfg, entries, level, n - 1);
    VisitDirsExtend(cfg, prev, entries[n - 1], level);
    ScanUpToStep(cfg, entries, level, n);
  }

  /** Visiting more entries only appends to the directory table. */
  lemma {:induction false} ScanUpToDirsGrow(cfg: Config, entries: seq<Entry>, level: nat, from: nat, n: nat)
    requires from <= n <= |entries|
    ensures ScanUpTo(cfg, entries, level, from).dirs <= ScanUpTo(cfg, entries, level, n).dirs
    decreases n
  {
    if from < n {
      ScanUpToDirsGrow(cfg, entries, level, from, n - 1);
      ScanUpToDirsGrowStep(cfg, entries, level, from, n);
    } else {
      PrefixRefl(ScanUpTo(cfg, entries, level, from).dirs);
    }
  }

  lemma ScanUpToDirsGrowStep(cfg: Config, entries: seq<Entry>, level: nat, from: nat, n: nat)
    requires from < n <= |entries|
    requires ScanUpTo(cfg, entries, level, from).dirs <= ScanUpTo(cfg, entries, level, n - 1).dirs
    ensures ScanUpTo(cfg, entries, level, from).dirs <= ScanUpTo(cfg, entries, level, n).dirs
  {
    ScanUpToDirsStep(cfg, entries, level, n);
    PrefixTrans(ScanUpTo(cfg, entries, level, from).dirs, ScanUpTo(cfg, entries, level, n - 1).dirs,
                ScanUpTo(cfg, entries, level, n).dirs);
  }

  lemma PrefixRefl<T>(a: seq<T>)
    ensures a <= a
  {
  }

  lemma PrefixTrans<T>(a: seq<T>, b: seq<T>, c: seq<T>)
    requires a <= b && b <= c
    ensures a <= c
  {
  }

  lemma ScanUpToNext(cfg: Config, entries: seq<Entry>, level: nat, i: nat)
    requires i < |entries| && entries[i].Folder? && entries[i].name !in cfg.dirsToIgnore
    ensures ScanUpTo(cfg, entries, level, i + 1).dirs ==
            ScanUpTo(cfg, entries, level, i).dirs + [(entries[i].name, level)] +
            PrefixDirs(entries[i].name, Scan(cfg, entries[i].entries, level + 1).dirs)
  {
    ScanUpToStep(cfg, entries, level, i + 1);
  }

  lemma SliceAfter<T>(ds: seq<T>, before: seq<T>, x: T, tail: seq<T>)
    requires before + [x] + tail <= ds
    ensures |before| + 1 + |tail| <= |ds|
    ensures ds[|before|] == x && ds[|before| + 1..|before| + 1 + |tail|] == tail
  {
    var p := |before|;
    assert ds[p] == (before + [x] + tail)[p];
    assert forall m | 0 <= m < |tail| :: tail[m] == (before + [x] + tail)[p + 1 + m];
  }

  /**
    A sub-directory that is not ignored is listed with its depth, and its own
    directory table follows it at once, every key joined onto its name.
   */
  lemma ScanFolderDirs(cfg: Config, entries: seq<Entry>, level: nat, i: nat) returns (p: nat)
    requires i < |entries| && entries[i].Folder? && entries[i].name !in cfg.dirsToIgnore
    ensures p + 1 + |Scan(cfg, entries[i].entries, level + 1).dirs| <= |Scan(cfg, entries, level).dirs|
    ensures Scan(cfg, entries, level).dirs[p] == (entries[i].name, level)
    ensures Scan(cfg, entries, level).dirs[p + 1..p + 1 + |Scan(cfg, entries[i].entries, level + 1).dirs|] ==
            PrefixDirs(entries[i].name, Scan(cfg, entries[i].entries, level + 1).dirs)
  {
    var ds := Scan(cfg, entries, level).dirs;
    var sub := Scan(cfg, entries[i].entries, level + 1).dirs;
    var before := ScanUpTo(cfg, entries, level, i).dirs;
    ScanUpToNext(cfg, entries, level, i);
    ScanUpToDirsGrow(cfg, entries, level, i + 1, |entries|);
    SliceAfter(ds, before, (entries[i].name, level), PrefixDirs(entries[i].name, sub));
    p := |before|;
  }

  /** No directory key passes through an ignored directory, at any depth. */
  lemma {:induction false} ScanDirsNotIgnored(cfg: Config, entries: seq<Entry>, level: nat, k: string)
    requires WellFormed(entries) && k in DirKeys(Scan(cfg, entries, level).dirs)
    ensures forall c | c in Components(k) :: c !in cfg.dirsToIgnore
    decreases entries
  {
    ScanKeys(cfg, entries, level, k);
    var i :| 0 <= i < |entries| && DirFrom(cfg, entries[i], level, k);
    var name := entries[i].name;
    if k == name {
      NameComponents(name);
    } else {
      var j :| j in DirKeys(Scan(cfg, entries[i].entries, level + 1).dirs) && k == Join(name, j);
      ScanDirsNotIgnored(cfg, entries[i].entries, level + 1, j);
      JoinComponents(name, j);
    }
  }

  /** Every extension stored in an audio table is ".flac" or ".mp3" in some case. */
  predicate AudioExtsOnly(music: map<string, Audio>)
  {
    forall k | k in music :: IsAudioExt(music[k].ext)
  }

  lemma VisitAudioExts(cfg: Config, acc: Snapshot, e: Entry, level: nat)
    requires AudioExtsOnly(acc.music)
    requires e.Folder? ==> AudioExtsOnly(Scan(cfg, e.entries, level + 1).music)
    ensures AudioExtsOnly(Visit(cfg, acc, e, level).music)
  {
    if e.Folder? && e.name !in cfg.dirsToIgnore {
      var sub := Scan(cfg, e.entries, level + 1).music;
      forall j | j in PrefixMap(e.name, sub)
        ensures IsAudioExt(PrefixMap(e.name, sub)[j].ext)
      {
        PrefixMapOnly(e.name, sub, j);
        var k :| k in sub && j == Join(e.name, k);
        PrefixMapAt(e.name, sub, k);
      }
    }
  }

  lemma {:induction false} ScanUpToAudioExts(cfg: Config, entries: seq<Entry>, level: nat, n: nat)
    requires n <= |entries|
    ensures AudioExtsOnly(ScanUpTo(cfg, entries, level, n).music)
    decreases entries, n
  {
    if n > 0 {
      ScanUpToAudioExts(cfg, entries, level, n - 1);
      if entries[n - 1].Folder? {
        ScanAudioExts(cfg, entries[n - 1].entries, level + 1);
      }
      VisitAudioExts(cfg, ScanUpTo(cfg, entries, level, n - 1), entries[n - 1], level);
    }
  }

  /** The scan stores only ".flac" and ".mp3" files, in any case, in the audio table. */
  lemma {:induction false} ScanAudioExts(cfg: Config, entries: seq<Entry>, level: nat)
    ensures AudioExtsOnly(Scan(cfg, entries, level).music)
    decreases entries, |entries| + 1
  {
    ScanUpToAudioExts(cfg, entries, level, |entries|);
  }
}
