/**
  The tag canonicaliser where it changes things: the ID3 tag object that
  `copy_tag_dict_to_mp3` fills frame by frame and `xx_total_correct` rewrites in
  place, and the loop of `id3_tags_as_dict` that reads a tag back into a field
  dict. Each method is proved against the functions of module Tags.
 */
module Id3 {
  import opened Wrappers
  import opened Settings
  import opened Tags

  /** mutagen's `ID3` object: the frames of one tag under their hash keys. */
  class Id3Tags {
    var frames: Frames

    ghost predicate Valid()
      reads this
    {
      WellKeyed(frames)
    }

    constructor (initial: Frames)
      requires WellKeyed(initial)
      ensures Valid() && frames == initial
    {
      frames := initial;
    }

    /** `ID3.add`: the frame replaces whatever was stored under its hash key. */
    method Add(f: Frame)
      requires Valid()
      modifies this
      ensures Valid()
      ensures frames == old(frames)[HashKey(f) := f]
    {
      frames := frames[HashKey(f) := f];
    }

    /** `ID3.delall`: no frame is left under the key. */
    method DelAll(key: string)
      requires Valid()
      modifies this
      ensures Valid()
      ensures frames == old(frames) - {key}
    {
      frames := frames - {key};
    }
  }

  /**
    One `if` of the ID3 branch of `xx_total_correct`: when the tag holds both
    the number frame and the TXXX total frame, a new number frame "N/M" is added
    and the total frame deleted. The tag is unchanged when it raises.
   */
  method MergeNumberInPlace(tags: Id3Tags, numId: string, totKey: string) returns (err: Option<TagError>)
    requires tags.Valid() && numId != "TXXX" && numId != totKey
    modifies tags
    ensures tags.Valid()
    ensures MergeNumber(old(tags.frames), numId, totKey).Ok? ==>
              err.None? && tags.frames == MergeNumber(old(tags.frames), numId, totKey).value
    ensures MergeNumber(old(tags.frames), numId, totKey).Err? ==>
              err == Some(MergeNumber(old(tags.frames), numId, totKey).error) && tags.frames == old(tags.frames)
  {
    if totKey in tags.frames && numId in tags.frames {
      var n := FirstText(tags.frames[numId]);
      if n.Err? {
        return Some(n.error);
      }
      var t := FirstText(tags.frames[totKey]);
      if t.Err? {
        return Some(t.error);
      }
      tags.Add(NumberFrame(numId, n.value, t.value));
      tags.DelAll(totKey);
    }
    err := None;
  }

  /**
    The ID3 branch of `xx_total_correct`, in place: track number and total
    first, then disc number and total. When the disc step raises, the track
    step has already happened.
   */
  method CorrectTotals(tags: Id3Tags) returns (err: Option<TagError>)
    requires tags.Valid()
    modifies tags
    ensures tags.Valid()
    ensures MergeTotals(old(tags.frames)).Ok? ==> err.None? && tags.frames == MergeTotals(old(tags.frames)).value
    ensures MergeTotals(old(tags.frames)).Err? ==> err == Some(MergeTotals(old(tags.frames)).error)
    ensures MergeTotals(old(tags.frames)).Err? ==>
              tags.frames == (var m := MergeNumber(old(tags.frames), "TRCK", "TXXX:tracktotal");
                              if m.Ok? then m.value else old(tags.frames))
  {
    err := MergeNumberInPlace(tags, "TRCK", "TXXX:tracktotal");
    if err.Some? {
      return;
    }
    err := MergeNumberInPlace(tags, "TPOS", "TXXX:disctotal");
  }

  /** The entries of `d` whose names are in `names`. */
  function Restrict<V>(d: map<string, V>, names: set<string>): (r: map<string, V>)
    ensures r.Keys == d.Keys * names
    ensures forall k | k in r :: r[k] == d[k]
  {
    map k | k in d && k in names :: d[k]
  }

  lemma UpdateOfUnion<K, V>(a: map<K, V>, b: map<K, V>, k: K, v: V)
    ensures (a + b)[k := v] == a + b[k := v]
  {
  }

  /** Visiting one more name of `d` restricts `d` to one more entry. */
  lemma RestrictStep<V>(d: map<string, V>, todo: set<string>, name: string)
    requires todo <= d.Keys && name in todo
    ensures name !in Restrict(d, d.Keys - todo)
    ensures Restrict(d, d.Keys - todo)[name := d[name]] == Restrict(d, d.Keys - (todo - {name}))
  {
  }

  /** Once every name has been visited, the restriction is the whole of `d`. */
  lemma RestrictAll<V>(d: map<string, V>, todo: set<string>)
    requires todo == {}
    ensures Restrict(d, d.Keys - todo) == d
  {
  }

  /** The loop of `copy_tag_dict_to_mp3` has added every field of `d`. */
  lemma AddFieldsDone(cfg: Config, start: Frames, d: TagDict, todo: set<string>, frames: Frames)
    requires ValidConfig(cfg) && todo == {} && FramesKnown(cfg, Restrict(d, d.Keys - todo))
    requires frames == start + FieldFrames(cfg, Restrict(d, d.Keys - todo))
    ensures AddFields(cfg, start, d) == Ok(frames)
  {
    RestrictAll(d, todo);
  }

  /** A field whose frame cannot be built makes the whole of `d` fail with that frame's error. */
  lemma AddFieldsFails(cfg: Config, start: Frames, d: TagDict, name: string)
    requires ValidConfig(cfg) && name in d && GetId3Frame(cfg, name, d[name]).Err?
    ensures AddFields(cfg, start, d) == Err(GetId3Frame(cfg, name, d[name]).error)
  {
  }

  /** One iteration of the loop of `copy_tag_dict_to_mp3`, on the frames of the tag. */
  lemma AddFieldStep(cfg: Config, start: Frames, added: TagDict, name: string, value: seq<string>)
    requires ValidConfig(cfg) && FramesKnown(cfg, added) && name !in added
    requires GetId3Frame(cfg, name, value).Ok?
    ensures FramesKnown(cfg, added[name := value])
    ensures (start + FieldFrames(cfg, added))[HashKey(GetId3Frame(cfg, name, value).value) := GetId3Frame(cfg, name, value).value]
            == start + FieldFrames(cfg, added[name := value])
  {
    assert FramesKnown(cfg, added[name := value]);
    var f := GetId3Frame(cfg, name, value).value;
    FieldFramesStep(cfg, added, name, value);
    UpdateOfUnion(start, FieldFrames(cfg, added), FieldKey(cfg, name), f);
  }

  /**
    The loop of `copy_tag_dict_to_mp3`: every field of `d` is added to the tag
    as the frame `get_id3_frame` builds, in whatever order the dict yields
    them. The result is the same whatever the order, because different fields
    go under different keys.
   */
  method AddFieldsInPlace(cfg: Config, tags: Id3Tags, d: TagDict) returns (err: Option<TagError>)
    requires ValidConfig(cfg) && tags.Valid()
    modifies tags
    ensures tags.Valid()
    ensures AddFields(cfg, old(tags.frames), d).Ok? ==> err.None? && tags.frames == AddFields(cfg, old(tags.frames), d).value
    ensures AddFields(cfg, old(tags.frames), d).Err? ==> err == Some(AddFields(cfg, old(tags.frames), d).error)
  {
    var todo := d.Keys;
    ghost var start := tags.frames;
    while todo != {}
      invariant todo <= d.Keys
      invariant tags.Valid()
      invariant FramesKnown(cfg, Restrict(d, d.Keys - todo))
      invariant tags.frames == start + FieldFrames(cfg, Restrict(d, d.Keys - todo))
      decreases todo
    {
      var name :| name in todo;
      var f := GetId3Frame(cfg, name, d[name]);
      if f.Err? {
        AddFieldsFails(cfg, start, d, name);
        return Some(f.error);
      }
      RestrictStep(d, todo, name);
      AddFieldStep(cfg, start, Restrict(d, d.Keys - todo), name, d[name]);
      tags.Add(f.value);
      todo := todo - {name};
    }
    AddFieldsDone(cfg, start, d, todo, tags.frames);
    err := None;
  }

  /** `copy_tag_dict_to_mp3` up to the save: add every field as a frame, then merge the totals. */
  method CopyTagDictToMp3(cfg: Config, tags: Id3Tags, d: TagDict) returns (err: Option<TagError>)
    requires ValidConfig(cfg) && tags.Valid()
    modifies tags
    ensures tags.Valid()
    ensures CopyTagDict(cfg, old(tags.frames), d).Ok? ==> err.None? && tags.frames == CopyTagDict(cfg, old(tags.frames), d).value
    ensures CopyTagDict(cfg, old(tags.frames), d).Err? ==> err == Some(CopyTagDict(cfg, old(tags.frames), d).error)
  {
    err := AddFieldsInPlace(cfg, tags, d);
    if err.None? {
      err := CorrectTotals(tags);
    }
  }

  /**
    The loop of `id3_tags_as_dict` followed by the dict branch of
    `xx_total_correct`: the frames are visited in the tag's own order, each
    contributing at most one field, and "N/M" numbers are then split.
   */
  method Id3TagsAsDict(cfg: Config, tags: Id3Tags) returns (r: Result<TagDict, TagError>)
    requires TableInjective(cfg.vorbisToId3)
    ensures exists raw :: RawDictOf(cfg, tags.frames, raw) && r == SplitTotals(raw)
  {
    var frames := tags.frames;
    var raw: TagDict := map[];
    var todo := frames.Keys;
    ghost var done: set<string> := {};
    while todo != {}
      invariant todo + done == frames.Keys && todo !! done
      invariant RawDictOf(cfg, Restrict(frames, done), raw)
      decreases todo
    {
      var k :| k in todo;
      var c := Contribution(cfg, frames[k]);
      ghost var prev := Restrict(frames, done);
      todo := todo - {k};
      done := done + {k};
      ghost var next := Restrict(frames, done);
      assert next == prev[k := frames[k]];
      if c.Some? {
        var rawBefore := raw;
        raw := raw[c.value.0 := c.value.1];
        forall n | n in raw
          ensures exists j | j in next :: Contribution(cfg, next[j]) == Some((n, raw[n]))
        {
          if n == c.value.0 {
            assert Contribution(cfg, next[k]) == Some((n, raw[n]));
          } else {
            var j :| j in prev && Contribution(cfg, prev[j]) == Some((n, rawBefore[n]));
            assert j in next && next[j] == prev[j];
          }
        }
      } else {
        forall n | n in raw
          ensures exists j | j in next :: Contribution(cfg, next[j]) == Some((n, raw[n]))
        {
          var j :| j in prev && Contribution(cfg, prev[j]) == Some((n, raw[n]));
          assert j in next && next[j] == prev[j];
        }
      }
    }
    assert Restrict(frames, done) == frames;
    r := SplitTotals(raw);
  }
}
