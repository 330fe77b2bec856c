# synch_to_mp3 in Dafny

`synch_to_mp3.py` keeps a right-hand tree of mp3 files in step with a
left-hand collection of flac and mp3 files. It does three things:

- It scans both trees into three tables each:
  - audio files, keyed by path without extension;
  - other files, keyed by full path;
  - directories, keyed by path, with their depth.
- It compares the tables.
- It then runs seven stages in a fixed order:
  1. make the missing directories;
  2. copy other files;
  3. renew changed audio;
  4. add new audio;
  5. delete audio;
  6. delete other files;
  7. remove directories, deepest last-found first.

For an audio file whose left copy is newer, the script compares the tags of the two copies:

- if they differ, it copies the left tags onto the right file;
- if they are equal, it re-encodes or re-copies the audio.

The tags are compared as Vorbis-style field dicts. The script turns an ID3 tag into such a dict and writes a dict back as ID3 frames.

The project models each part in its own module:

| module | file | models |
|---|---|---|
| `Wrappers` | `wrappers.dfy` | `Option` and `Result` |
| `Text` | `text.dfy` | `str.lower`, `os.path.splitext`, `os.path.join` and path components |
| `Settings` | `settings.dfy` | the configuration block (directories to ignore, the field-to-frame table, frames to ignore) as a `Config` value, and the shipped values |
| `Tags` | `tags.dfy` | the tag canonicaliser as functions: `get_id3_frame`, its inverse (one iteration of the loop of `id3_tags_as_dict`), both branches of `xx_total_correct`, and the frames `copy_tag_dict_to_mp3` leaves behind |
| `Id3` | `id3.dfy` | the same code in its imperative form: a class `Id3Tags` whose frame container is updated by `add` and `delall`, and the methods that loop over it, each proved against the `Tags` functions |
| `TagRoundTrip` | `roundtrip.dfy` | writing a field dict as ID3 frames and reading them back gives the dict again |
| `Scanner` | `scanner.dfy` | `get_files_dirs` over a directory tree value, with the properties of the three tables it builds |
| `Diff` | `diff.dfy` | `CompResult.__init__`, `_compare_files` and `_compare_music` |
| `Sync` | `apply.dfy` | the class `CompResult` and its stage methods; each stage produces the list of actions it would perform (`Action`), or stops at the failure it would raise (`Failure`) |
| `Decisions` | `decisions.dfy` | what a whole run does, against the table at the head of the script (lines 5-15); see below |

The `Decisions` module shows the following:

- the stages come in order;
- for every audio or other file, a run without failure performs exactly the action the table names for it;
- `_copy_music_changed` raises for exactly the inputs that stop the run:
  - a scanned tree never triggers "What is this thing?";
  - any right copy not named exactly `.mp3` triggers the assertion, including `.MP3`, which the scanner itself accepts;
- a removed directory comes after every right directory below it, and every file the scan saw below it has been deleted before;
- the right side ends with the left side's keys.

## Model

| member | source | states |
|---|---|---|
| Text.SplitExt | synch_to_mp3.py:241 | The stem and the extension concatenate to the name. A non-empty extension starts with its only dot, and the stem is then not all dots. |
| Text.SplitExtNone | synch_to_mp3.py:241 | The extension is empty exactly when every dot of the name has only dots before it. |
| Text.JoinInjective | synch_to_mp3.py:233-235 | Keys prefixed with two entry names are equal only when the names and the keys are equal. |
| Settings.DefaultTableInjective | synch_to_mp3.py:54-69 | The shipped field-to-frame table maps no two fields to the same frame id. |
| Settings.DefaultValid | synch_to_mp3.py:54-76 | The shipped configuration meets everything the tag code relies on: the table is one-to-one, its ids are four characters long and none is TXXX, and TXXX is not ignored. |
| TagRoundTrip.DefaultRoundTripConfig | synch_to_mp3.py:54-76 | The shipped configuration maps tracknumber to TRCK and discnumber to TPOS, has no total fields, ignores no frame of the table, and knows every frame it names. |
| Tags.GetId3Frame | synch_to_mp3.py:92-106 | A field of the table becomes a text frame of the table's id, failing exactly when that id is not a known frame type. Any other field becomes a TXXX frame described by its name. The text is the value, and the frame's hash key is the field's key. |
| Tags.FieldKeyInjective | synch_to_mp3.py:98-106 | Under a valid configuration, different fields are stored under different frame keys. |
| Tags.FieldFrames | synch_to_mp3.py:155-157 | The frames built from a dict have exactly one key per field, holding the frame `get_id3_frame` makes for it. |
| Tags.AddFields | synch_to_mp3.py:155-157 | Adding every field fails exactly when a field names an unknown frame type. Otherwise the keys are the old ones plus the fields' keys, each field's key holds the frame `get_id3_frame` makes for that field, and frames under other keys are kept. |
| Tags.Id3ToVorbis | synch_to_mp3.py:168 | The reversed table has the table's frame ids as keys and maps each back to its field. |
| Tags.Contribution | synch_to_mp3.py:171-192 | A frame of the table gives its field name and text. A frame to ignore gives nothing. Any other frame gives its description and text, or nothing when it lacks either. |
| Tags.ContributionInvertsGetId3Frame | synch_to_mp3.py:163-192 | Reading back any frame `get_id3_frame` builds gives the field name and value it was built from. |
| Tags.SplitNumber | synch_to_mp3.py:134-142 | An empty value list, or a number with more than one "/", fails. A number "N/M" becomes the single value N and the total the single value M, neither holding "/", where N + "/" + M is the old value. A number without "/" leaves both fields as they were. Every other field is kept, and no other field is added. |
| Tags.SplitTotals | synch_to_mp3.py:132-144 | The dict branch fails exactly on a bad track or disc number. Otherwise a track number "N/M" becomes track number N and track total M, neither holding "/", and a track number without "/" leaves both track fields as they were; the same holds for the disc fields. Every non-number field is kept, no field is added outside the number fields, and the result is in split form. |
| Tags.SplitTotalsIdempotent | synch_to_mp3.py:132-144 | Applying the dict branch to its own result gives the same result. |
| Tags.FirstText | synch_to_mp3.py:119-120 | `text[0]` succeeds exactly when the frame has a non-empty text list, and gives its first element. |
| Tags.MergeNumber | synch_to_mp3.py:118-128 | When both the number frame and the total frame are present, the number frame becomes "N/M" from their first values and the total frame is deleted. It fails only when one of the two has no first value. Every other frame is kept, and without both frames the tag is unchanged. |
| Tags.MergeTotals | synch_to_mp3.py:116-130 | The ID3 branch fails exactly when TRCK and TXXX:tracktotal, or TPOS and TXXX:disctotal, are both present and one of the pair has no first text. Otherwise each pair that is present becomes the number frame holding the single text "N/M" from the two first texts, and the total frame is gone. A pair not both present is left as it was. Every frame outside the four number keys is kept, and no key is added. |
| Id3.Id3Tags.Add | synch_to_mp3.py:121 | `add` stores the frame under its hash key, replacing what was there. |
| Id3.Id3Tags.DelAll | synch_to_mp3.py:122 | `delall` leaves no frame under the key and changes nothing else. |
| Id3.MergeNumberInPlace | synch_to_mp3.py:118-122 | The in-place merge leaves the container equal to `MergeNumber` of the old one, or reports its error and leaves the container unchanged. |
| Id3.CorrectTotals | synch_to_mp3.py:116-130 | The in-place ID3 branch leaves the container equal to `MergeTotals` of the old one, or reports its error. |
| Id3.AddFieldsInPlace | synch_to_mp3.py:155-157 | The loop of `copy_tag_dict_to_mp3` leaves the container equal to `AddFields` of the old one, or reports the unknown frame type. |
| Id3.CopyTagDictToMp3 | synch_to_mp3.py:150-160 | Adding the fields and merging the totals in place gives the frames `CopyTagDict` describes, or its error. |
| Id3.Id3TagsAsDict | synch_to_mp3.py:163-196 | The result is the dict branch applied to a dict the loop can build. Every contributing frame has its field in it, and every entry comes from some frame. |
| TagRoundTrip.MergeNumberField | synch_to_mp3.py:118-121 | On the field dict, merging turns number "N" and total "M" into the one value "N/M" and drops the total, and keeps every other field. |
| TagRoundTrip.SplitTotalsUndoesMerge | synch_to_mp3.py:116-144 | The dict branch undoes the ID3 branch's merge of a dict in split form. |
| TagRoundTrip.TagsRoundTrip | synch_to_mp3.py:150-196 | Writing a field dict into a tag that holds only encoder frames succeeds, and reading the result back gives exactly that dict. |
| Scanner.PrefixMapAt | synch_to_mp3.py:233-234 | Every sub-key reappears joined under the directory name with its value. |
| Scanner.PrefixMapOnly | synch_to_mp3.py:233-234 | Nothing but joined sub-keys appears. |
| Scanner.PrefixMapUnique | synch_to_mp3.py:233-234 | Any table with exactly the joined sub-keys and their values is the joined table. |
| Scanner.JoinKeys | synch_to_mp3.py:233-234 | The dict comprehension the scanner evaluates builds exactly the joined table. |
| Scanner.PrefixDirs | synch_to_mp3.py:235 | The sub-directories keep their order and depths, joined under the directory name. |
| Scanner.GetFilesDirs | synch_to_mp3.py:220-247 | The recursive scan returns the three tables of `Scan`. |
| Scanner.ScanKeys | synch_to_mp3.py:220-247 | A key is in each table exactly when some entry produces it. Audio files give their stem. Other files give their name. Folders that are not ignored give their name and their subtree's keys joined under it. |
| Scanner.ScanAudioFile | synch_to_mp3.py:239-243 | A flac or mp3 file, matched case-insensitively, appears under its stem with its extension and time. |
| Scanner.ScanOtherFile | synch_to_mp3.py:244-245 | Any other file appears under its full name with its time. |
| Scanner.ScanFolderFiles | synch_to_mp3.py:232-237 | Every file of a folder's subtree appears joined under the folder's name, with the same value. |
| Scanner.ScanDirs | synch_to_mp3.py:229-238 | The directory table has no key twice, lists a directory before everything below it and every ancestor of each directory, and records the depth of every directory. |
| Scanner.ScanFolderDirs | synch_to_mp3.py:229-238 | A folder's own entry is followed directly by its subtree's directory table, prefixed. |
| Scanner.ScanFileAncestors | synch_to_mp3.py:226-238 | Every directory above a scanned file is in the directory table. |
| Scanner.ScanDirsNotIgnored | synch_to_mp3.py:227-229 | No component of a scanned directory key is an ignored name. |
| Scanner.ScanAudioExts | synch_to_mp3.py:242-243 | Every audio entry's extension is flac or mp3 in some case. |
| Scanner.StemIsName | synch_to_mp3.py:241 | The stem of an audio file name is a non-empty name without separators. |
| Diff.DirsMissingFrom | synch_to_mp3.py:259-260 | An entry is kept exactly when its key is absent from the other table. |
| Diff.DirsMissingFromKeys | synch_to_mp3.py:259-260 | The keys of the filtered table are the set difference of the two tables' keys. |
| Diff.DirsMissingFromOrder | synch_to_mp3.py:259-260 | Filtering keeps keys distinct and ancestors first. |
| Diff.DirsMissingFromSubsequence | synch_to_mp3.py:259-260 | The filtered table is the table with some entries dropped and the rest in their order. |
| Diff.DirsMissingFromBelow | synch_to_mp3.py:260 | When a directory is missing from the other side, so is every directory below it. |
| Diff.CompareFiles | synch_to_mp3.py:265-276 | To delete are the right-only keys. To copy, once each, are exactly the left keys that the right lacks or whose time differs in either direction. |
| Diff.FilesSyncMirrors | synch_to_mp3.py:354-365 | After copying and deleting, the right side's other files are exactly the left ones with the left times. |
| Diff.MusicMissingFrom | synch_to_mp3.py:279 | The right-only audio entries, with their values. |
| Diff.CompareMusic | synch_to_mp3.py:278-290 | Left-only holds exactly the keys only the left side has. Changed holds exactly the common keys whose left time is strictly greater. To delete holds the right-only entries. No key appears twice. |
| Diff.MusicPartition | synch_to_mp3.py:278-290 | The three audio collections are pairwise disjoint. A key is in none of them exactly when both sides have it and the right copy is at least as new. |
| Sync.RunStepsMeaning | synch_to_mp3.py:301-346 | A loop of steps performs every step before the first that raises and reports that one. It fails exactly when some step fails. |
| Sync.RunStepsStopped | synch_to_mp3.py:301-346 | Once a prefix has raised, later iterations do not matter. |
| Sync.CompResult.constructor | synch_to_mp3.py:250-263 | Both tables come from scanning at depth 0, and all seven collections are derived as the comparison demands. |
| Sync.CompResult.CopyDirs | synch_to_mp3.py:367-374 | One directory creation per missing directory, in table order. |
| Sync.CompResult.CopyFiles | synch_to_mp3.py:354-359 | One copy per file to copy, in list order. |
| Sync.CompResult.CopyMusicChanged | synch_to_mp3.py:301-330 | The loop's trace is that of the changed keys' steps, up to the first that raises. |
| Sync.CompResult.CopyMusicLeftOnly | synch_to_mp3.py:332-346 | The loop's trace is that of the left-only keys' steps, up to the first that raises. |
| Sync.CompResult.RemoveMusic | synch_to_mp3.py:348-352 | Each right-only audio file is deleted once, with its own extension, in the order the dict is walked. |
| Sync.CompResult.RemoveFiles | synch_to_mp3.py:361-365 | Each right-only other file is deleted once, in the order the set is walked. |
| Sync.CompResult.RemoveDirs | synch_to_mp3.py:376-381 | The right-only directories are removed in reverse table order. |
| Sync.CompResult.Synchronise | synch_to_mp3.py:292-299 | The seven stages run in order, and the run stops at the first stage that raises. |
| Decisions.PlanStagesInOrder | synch_to_mp3.py:292-299 | Every action of a run comes before every action of a later stage. |
| Decisions.ChangedFollowsMatrix | synch_to_mp3.py:301-330 | A successful iteration reads both tags. It copies tags when they differ; when they are equal it encodes flac and copies mp3, as the table says. The left file is flac or mp3, and the right one is named ".mp3". |
| Decisions.LeftOnlyFollowsMatrix | synch_to_mp3.py:332-346 | A successful iteration encodes a flac and copies an mp3, as the table says for left-only files. |
| Decisions.MusicFollowsMatrix | synch_to_mp3.py:5-15 | A run without failure performs on every audio key exactly the one action the table gives for its kind and situation, or none where the table says nothing. |
| Decisions.FilesFollowMatrix | synch_to_mp3.py:5-15 | For other files, a run without failure copies a left-only or differing file once, deletes a right-only file once, and otherwise does nothing, as the table's "other" row says. |
| Decisions.NoUnknownKind | synch_to_mp3.py:305-312 | With audio tables as the scanner builds them, no run raises "What is this thing?". |
| Decisions.CompletedRunHadMp3Targets | synch_to_mp3.py:314-315 | A run without failure found every changed key's right copy named exactly ".mp3". |
| Decisions.UpperCaseTargetStops | synch_to_mp3.py:314-315 | The scanner accepts ".MP3", yet a newer left copy over such a right file stops the run at the assertion. |
| Decisions.RemoveDirsChildrenFirst | synch_to_mp3.py:376-381 | Walking a table whose ancestors come first backwards removes every directory after all directories below it. |
| Decisions.RemovedDirsAreEmptied | synch_to_mp3.py:376-381 | Every right directory below a removed one is removed, and earlier. Every audio or other file the scan saw below it is among those deleted by the earlier stages. |
| Decisions.SyncMirrors | synch_to_mp3.py:250-290 | The comparison's collections, applied to the right side's tables, give the left side's. The right directories minus those to delete plus those to copy are the left directories. The same holds for the audio keys. The right files, once copied over and deleted, are the left ones with the left times. |
| Decisions.PlanDirKeys | synch_to_mp3.py:367-381 | A run without failure creates exactly the directories the right side lacks and removes exactly the right-only ones. |
| Decisions.PlanMusicKey | synch_to_mp3.py:301-352 | A run without failure writes an audio key from the left side exactly when it is changed or left-only, and deletes it exactly when it is right-only. |
| Decisions.PlanFileKey | synch_to_mp3.py:354-365 | A run without failure copies exactly the other files to copy and deletes exactly the right-only ones. |
| Decisions.PlanMirrors | synch_to_mp3.py:292-299 | After a run without failure, the trace turns the right side's keys into the left side's. Take the right directories, drop those the trace removes and add those it creates: the result is the left directories. The same holds for the audio keys deleted and written, and for the other files deleted and copied. A left file the run does not copy is already on the right with the left time. |

## Left out

- Enumeration order. Python walks `scandir`, dicts and sets in an order the model leaves open:
  - the scanner walks entries in the order given;
  - maps stand for the audio and other-file tables;
  - the lists built from maps hold each key once, in some order;
  - `_remove_music` and `_remove_files` take the walk order as a ghost parameter.
- Filesystem effects. `scandir`, `stat`, `makedirs`, `copy2`, `remove`, `rmdir` and the flac and lame subprocesses become:
  - a directory tree value (`Scanner.Entry`) with integer modification times in place of floats;
  - `Sync.Action` values in the trace.

  `flac_to_mp3` exists only as the `Encode` action, carrying the tag dict it would be given.
- Base paths. The two base paths and the encoder paths and quality are not modelled. Keys are relative paths with '/' as the separator. `str.lower` is modelled on ASCII letters only.
- Tag reading. mutagen's loading and saving of files and `str()` on frame texts are out of scope. The tags of each file are an input (`Sync.TagSource`), and reading an mp3 file's tag can fail with a `TagError`.
- The `print` calls. The log lines and `silent` are not modelled.
- Failed tag lookup while logging. In `id3_tags_as_dict`, the log line of an ignored frame looks up `TPE1` and `TIT2`. The `KeyError` this raises when those frames are missing is not modelled; the frame is skipped.
- Tag writes. A failure of `copy_tag_dict_to_mp3` inside a tag-copy or encode action (an unknown frame type) is not carried into the run's trace. The action records the dict to write.
- Errors of the stages that have no branch in the code: a failed `makedirs` other than `FileExistsError`, a failed copy or removal, and a non-empty directory at `rmdir`. They are left out. An ignored directory on the right below a removed one would make `rmdir` fail. `FileExistsError` only suppresses a log line and makes no difference to the trace.
- Scanner.ScanAudioFile: it requires `WellFormed` (names without separators, unique within a folder) and `AudioStemsDistinct` (no flac and mp3 file with the same stem in one folder). The header of the script asks for the latter. Without it, the later of the two entries wins, as `Visit` models.
- Tags.FieldFrames: it requires `ValidConfig`. Only configurations whose table is one-to-one, whose ids are four characters long and not TXXX, and that do not ignore TXXX are modelled. The shipped configuration meets these (`Settings.DefaultValid`). With a table that maps two fields to one id, the field added last in dict order would win. A table id "TXXX" would build a TXXX frame with an empty description.
- Tags.AddFields: it requires `ValidConfig`, for the reason given for `Tags.FieldFrames`.
- Tags.CopyTagDict: it requires `ValidConfig`, for the reason given for `Tags.FieldFrames`.
- Id3.AddFieldsInPlace: it requires `ValidConfig`, for the reason given for `Tags.FieldFrames`.
- Id3.CopyTagDictToMp3: it requires `ValidConfig`, for the reason given for `Tags.FieldFrames`.
- Tags.HashKey: frames are keyed by their id, or by "TXXX:" and the description for TXXX frames. mutagen also keys COMM, USLT, APIC and some other frames by description or language. Two such frames with the same id but different descriptions are one frame in this model.
- Id3.Id3TagsAsDict: the result is stated as the dict branch applied to some dict the loop can build from the frames in some order. Which frame wins when two frames give the same field name depends on that order and is not pinned down.
- Id3.Id3TagsAsDict: it requires the table to be one-to-one (`TableInjective`), so that the reversed table of line 168 loses no entry. The shipped table is one-to-one (`Settings.DefaultTableInjective`).
- TagRoundTrip.TagsRoundTrip: it holds for dicts in split form (`RoundTripSafe`) written into a tag that holds only frames to ignore. A flac dict whose track number is already "N/M" reads back split, so it never compares equal to the right copy's tags.
- Decisions.PlanMirrors: the trace does not carry times, so the lemma does not state the time of a copied file. `copy2` keeps the left time, and `Diff.FilesSyncMirrors` states the resulting table on that basis.
- Decisions.MusicFollowsMatrix: it is stated for runs that end without failure, and takes the left audio table as the scanner builds it (`AudioExtsOnly`). Runs that stop are described by `Sync.RunStepsMeaning` and the failure lemmas.
