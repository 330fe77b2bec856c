/**
  The tag canonicaliser, as functions: the Vorbis field dict ("flac_like dict",
  field name to list of values) and the ID3 frame container (frame key to
  frame), the translation of one field into one frame (`get_id3_frame`), the
  inverse translation of one frame back into one field (the body of the loop in
  `id3_tags_as_dict`), and both branches of `xx_total_correct`.

  The ID3 container is a map from the frame's hash key to the frame, and adding
  a frame overwrites the frame already stored under its key. The imperative
  code that changes a container in place is in module Id3.
 */
module Tags {
  import opened Wrappers
  import opened Text
  import opened Settings

  /** A Vorbis-style tag set: field name to the list of its values. */
  type TagDict = map<string, seq<string>>

  /**
    An ID3 frame: its four-character id, its description (TXXX, COMM and the
    other frames that have one) and its text list (text frames); None where
    the frame's class has no such attribute.
   */
  datatype Frame = Frame(id: string, desc: Option<string>, text: Option<seq<string>>)

  /** An ID3 tag: frames under their hash keys. */
  type Frames = map<string, Frame>

  datatype TagError =
    /** The table names a frame id the ID3 library does not know (the assertion in get_id3_frame). */
    | UnknownFrameType
    /** A number or total frame without a text attribute. */
    | MissingText
    /** `[0]` of an empty value list. */
    | EmptyValue
    /** A number value with more than one "/", so the unpacking of its split fails. */
    | TooManyParts

  /** The key a frame is stored under: "TXXX:" and the description for TXXX, the id otherwise. */
  function HashKey(f: Frame): string
  {
    if f.id == "TXXX" then "TXXX:" + (if f.desc.Some? then f.desc.value else "") else f.id
  }

  /** Every frame is stored under its own hash key. */
  ghost predicate WellKeyed(frames: Frames)
  {
    forall k | k in frames :: HashKey(frames[k]) == k
  }

  // ---------------------------------------------------------------------------
  // Field to frame: get_id3_frame

  /** The key under which the frame built from field `name` is stored. */
  function FieldKey(cfg: Config, name: string): string
  {
    if name in cfg.vorbisToId3 then cfg.vorbisToId3[name] else "TXXX:" + name
  }

  /**
    `get_id3_frame`: a field of the table becomes a text frame of the id the
    table names, failing when the ID3 library has no such frame type; any
    other field becomes a TXXX frame described by the field name.
   */
  function GetId3Frame(cfg: Config, name: string, value: seq<string>): (r: Result<Frame, TagError>)
    ensures r.Err? <==> name in cfg.vorbisToId3 && cfg.vorbisToId3[name] !in cfg.knownFrames
    ensures r.Ok? ==> r.value.text == Some(value)
    ensures r.Ok? && name in cfg.vorbisToId3 ==> r.value.id == cfg.vorbisToId3[name] && r.value.desc.None?
    ensures r.Ok? && name !in cfg.vorbisToId3 ==> r.value.id == "TXXX" && r.value.desc == Some(name)
    ensures r.Ok? && ValidConfig(cfg) ==> HashKey(r.value) == FieldKey(cfg, name)
  {
    if name in cfg.vorbisToId3 then
      var id := cfg.vorbisToId3[name];
      if id in cfg.knownFrames then Ok(Frame(id, None, Some(value))) else Err(UnknownFrameType)
    else
      Ok(Frame("TXXX", Some(name), Some(value)))
  }

  /** No field of `d` names a frame type the ID3 library does not know. */
  predicate FramesKnown(cfg: Config, d: TagDict)
  {
    forall name | name in d && name in cfg.vorbisToId3 :: cfg.vorbisToId3[name] in cfg.knownFrames
  }

  /** Under a valid configuration, different fields are stored under different frame keys. */
  lemma FieldKeyInjective(cfg: Config, a: string, b: string)
    requires ValidConfig(cfg) && a != b
    ensures FieldKey(cfg, a) != FieldKey(cfg, b)
  {
    if a in cfg.vorbisToId3 && b !in cfg.vorbisToId3 {
      assert |FieldKey(cfg, b)| == 5 + |b|;
    } else if a !in cfg.vorbisToId3 && b in cfg.vorbisToId3 {
      assert |FieldKey(cfg, a)| == 5 + |a|;
    } else if a !in cfg.vorbisToId3 {
      assert FieldKey(cfg, a)[5..] == a;
      assert FieldKey(cfg, b)[5..] == b;
    }
  }

  /** The frames the loop of `copy_tag_dict_to_mp3` builds from `d`, under their keys. */
  function FieldFrames(cfg: Config, d: TagDict): (r: Frames)
    requires ValidConfig(cfg) && FramesKnown(cfg, d)
    ensures r.Keys == set name | name in d :: FieldKey(cfg, name)
    ensures forall name | name in d :: r[FieldKey(cfg, name)] == GetId3Frame(cfg, name, d[name]).value
  {
    assert forall a, b | a in d && b in d && a != b :: FieldKey(cfg, a) != FieldKey(cfg, b) by {
      forall a, b | a in d && b in d && a != b ensures FieldKey(cfg, a) != FieldKey(cfg, b) {
        FieldKeyInjective(cfg, a, b);
      }
    }
    map name | name in d :: FieldKey(cfg, name) := GetId3Frame(cfg, name, d[name]).value
  }

  /** The frames built from `d` have a key for exactly the fields of `d`. */
  lemma FieldKeyInFieldFrames(cfg: Config, d: TagDict, name: string)
    requires ValidConfig(cfg) && FramesKnown(cfg, d)
    ensures FieldKey(cfg, name) in FieldFrames(cfg, d) <==> name in d
  {
    if FieldKey(cfg, name) in FieldFrames(cfg, d) && name !in d {
      var n :| n in d && FieldKey(cfg, n) == FieldKey(cfg, name);
      FieldKeyInjective(cfg, n, name);
    }
  }

  /**
    The frames of a tag after every field of `d` has been added to it: each
    added frame replaces the one stored under its key, and a field whose table
    entry names an unknown frame type is a configuration error.
   */
  function AddFields(cfg: Config, frames: Frames, d: TagDict): (r: Result<Frames, TagError>)
    requires ValidConfig(cfg)
    ensures r.Err? <==> !FramesKnown(cfg, d)
    ensures r.Ok? ==> r.value.Keys == frames.Keys + (set name | name in d :: FieldKey(cfg, name))
    ensures r.Ok? ==> forall k | k in frames && k !in FieldFrames(cfg, d) :: r.value[k] == frames[k]
    ensures r.Ok? ==> forall name | name in d ::
              FieldKey(cfg, name) in r.value && r.value[FieldKey(cfg, name)] == GetId3Frame(cfg, name, d[name]).value
  {
    if FramesKnown(cfg, d) then Ok(frames + FieldFrames(cfg, d)) else Err(UnknownFrameType)
  }

  lemma MapsEqual<K, V>(a: map<K, V>, b: map<K, V>)
    requires a.Keys == b.Keys && forall k | k in a :: a[k] == b[k]
    ensures a == b
  {
  }

  /** Adding one more field to a dict adds its frame, under its own key, to the frames built from it. */
  lemma FieldFramesStep(cfg: Config, d: TagDict, name: string, value: seq<string>)
    requires ValidConfig(cfg) && FramesKnown(cfg, d) && name !in d
    requires FramesKnown(cfg, d[name := value]) && GetId3Frame(cfg, name, value).Ok?
    ensures FieldFrames(cfg, d[name := value]) == FieldFrames(cfg, d)[FieldKey(cfg, name) := GetId3Frame(cfg, name, value).value]
  {
    FieldFramesStepKeys(cfg, d, name, value);
    FieldFramesStepPointwise(cfg, d, name, value);
    MapsEqual(FieldFrames(cfg, d[name := value]), FieldFrames(cfg, d)[FieldKey(cfg, name) := GetId3Frame(cfg, name, value).value]);
  }

  lemma FieldFramesStepPointwise(cfg: Config, d: TagDict, name: string, value: seq<string>)
    requires ValidConfig(cfg) && FramesKnown(cfg, d) && name !in d
    requires FramesKnown(cfg, d[name := value]) && GetId3Frame(cfg, name, value).Ok?
    ensures var after := FieldFrames(cfg, d[name := value]);
            var expected := FieldFrames(cfg, d)[FieldKey(cfg, name) := GetId3Frame(cfg, name, value).value];
            forall k | k in after :: k in expected && after[k] == expected[k]
  {
    var after := FieldFrames(cfg, d[name := value]);
    var expected := FieldFrames(cfg, d)[FieldKey(cfg, name) := GetId3Frame(cfg, name, value).value];
    forall k | k in after ensures k in expected && after[k] == expected[k] {
      var n :| n in d[name := value] && FieldKey(cfg, n) == k;
      FieldFramesStepAt(cfg, d, name, value, n);
    }
  }

  lemma FieldFramesStepAt(cfg: Config, d: TagDict, name: string, value: seq<string>, n: string)
    requires ValidConfig(cfg) && FramesKnown(cfg, d) && name !in d
    requires FramesKnown(cfg, d[name := value]) && GetId3Frame(cfg, name, value).Ok?
    requires n in d[name := value]
    ensures var expected := FieldFrames(cfg, d)[FieldKey(cfg, name) := GetId3Frame(cfg, name, value).value];
            FieldKey(cfg, n) in expected && FieldFrames(cfg, d[name := value])[FieldKey(cfg, n)] == expected[FieldKey(cfg, n)]
  {
    if n != name {
      FieldKeyInjective(cfg, n, name);
      assert FieldFrames(cfg, d[name := value])[FieldKey(cfg, n)] == GetId3Frame(cfg, n, d[n]).value;
    }
  }

  lemma FieldFramesStepKeys(cfg: Config, d: TagDict, name: string, value: seq<string>)
    requires ValidConfig(cfg) && FramesKnown(cfg, d) && name !in d
    requires FramesKnown(cfg, d[name := value])
    ensures FieldFrames(cfg, d[name := value]).Keys == FieldFrames(cfg, d).Keys + {FieldKey(cfg, name)}
  {
  }

  // ---------------------------------------------------------------------------
  // Frame to field: one iteration of id3_tags_as_dict

  /** `{v: k for k, v in vorbis_to_id3_map.items()}`. */
  function Id3ToVorbis(table: map<string, string>): (r: map<string, string>)
    requires TableInjective(table)
    ensures r.Keys == table.Values
    ensures forall name | name in table :: r[table[name]] == name
  {
    map name | name in table :: table[name] := name
  }

  /**
    What one frame contributes to the field dict: a frame of the table gives
    its field name; a frame to ignore gives nothing; any other frame is named
    by its description, and gives nothing when it has none; a frame without a
    text list gives nothing.
   */
  function Contribution(cfg: Config, f: Frame): (r: Option<(string, seq<string>)>)
    requires TableInjective(cfg.vorbisToId3)
    ensures r.Some? ==> Some(r.value.1) == f.text
    ensures f.id in cfg.vorbisToId3.Values && f.text.Some? ==> r.Some? && r.value.0 in cfg.vorbisToId3 && cfg.vorbisToId3[r.value.0] == f.id
    ensures f.id !in cfg.vorbisToId3.Values && f.id in cfg.id3FramesToIgnore ==> r.None?
    ensures f.id !in cfg.vorbisToId3.Values && f.id !in cfg.id3FramesToIgnore ==>
              (r.Some? <==> f.desc.Some? && f.text.Some?) && (r.Some? ==> r.value.0 == f.desc.value)
  {
    var reverse := Id3ToVorbis(cfg.vorbisToId3);
    var key: Option<string> :=
      if f.id in reverse then Some(reverse[f.id])
      else if f.id in cfg.id3FramesToIgnore then None
      else f.desc;
    if key.None? || f.text.None? then None else Some((key.value, f.text.value))
  }

  /** `id3_tags_as_dict` turns every frame `get_id3_frame` builds back into the field it came from. */
  lemma ContributionInvertsGetId3Frame(cfg: Config, name: string, value: seq<string>)
    requires ValidConfig(cfg) && GetId3Frame(cfg, name, value).Ok?
    ensures Contribution(cfg, GetId3Frame(cfg, name, value).value) == Some((name, value))
  {
    if name in cfg.vorbisToId3 {
      assert Id3ToVorbis(cfg.vorbisToId3)[cfg.vorbisToId3[name]] == name;
    } else {
      assert "TXXX" !in cfg.vorbisToId3.Values;
    }
  }

  /**
    `raw` is a dict the loop of `id3_tags_as_dict` can build from `frames`:
    every frame that contributes a field has its field name in `raw`, and
    every entry of `raw` is the contribution of some frame. When two frames
    give the same name the one visited last wins, so which one depends on the
    container's order.
   */
  ghost predicate RawDictOf(cfg: Config, frames: Frames, raw: TagDict)
    requires TableInjective(cfg.vorbisToId3)
  {
    && (forall k | k in frames && Contribution(cfg, frames[k]).Some? :: Contribution(cfg, frames[k]).value.0 in raw)
    && (forall n | n in raw :: exists k | k in frames :: Contribution(cfg, frames[k]) == Some((n, raw[n])))
  }

  // ---------------------------------------------------------------------------
  // xx_total_correct, dict branch: "N/M" is split into number and total

  /** The number field would make the dict branch raise: no value at all, or more than one "/". */
  predicate BadNumber(d: TagDict, num: string)
  {
    num in d && (|d[num]| == 0 || |Split(d[num][0], NumberSep)| > 2)
  }

  /** `a` and `b` agree at `k`: both lack it, or both hold the same value there. */
  ghost predicate SameAt<K, V>(a: map<K, V>, b: map<K, V>, k: K)
  {
    (k in a <==> k in b) && (k in a ==> a[k] == b[k])
  }

  /**
    What the dict branch does to one pair of fields: when the first value of
    the number field holds "/", the field becomes the part before it and the
    total field the part after it, neither part holding "/"; otherwise both
    fields are as they were.
   */
  ghost predicate SplitPair(d: TagDict, r: TagDict, num: string, tot: string)
  {
    if num in d && |d[num]| > 0 && NumberSep in d[num][0] then
      num in r && tot in r && |r[num]| == 1 && |r[tot]| == 1
      && NumberSep !in r[num][0] && NumberSep !in r[tot][0]
      && d[num][0] == r[num][0] + [NumberSep] + r[tot][0]
    else
      SameAt(d, r, num) && SameAt(d, r, tot)
  }

  function SplitNumber(d: TagDict, num: string, tot: string): (r: Result<TagDict, TagError>)
    requires num != tot
    ensures r.Err? <==> BadNumber(d, num)
    ensures r.Ok? ==> SplitPair(d, r.value, num, tot)
    ensures r.Ok? ==> forall k | k != num && k != tot :: SameAt(d, r.value, k)
    ensures r.Ok? ==> r.value.Keys <= d.Keys + {tot}
    ensures r.Ok? ==> forall k | k in d && k != num && k != tot :: k in r.value && r.value[k] == d[k]
    ensures r.Ok? && num in d ==> num in r.value && |r.value[num]| > 0 && NumberSep !in r.value[num][0]
    ensures r.Ok? && num in d && NumberSep in d[num][0] ==>
              tot in r.value && |r.value[tot]| == 1 && d[num][0] == r.value[num][0] + [NumberSep] + r.value[tot][0]
    ensures r.Ok? && (num !in d || NumberSep !in d[num][0]) ==> r.value == d
  {
    if num !in d then Ok(d)
    else if |d[num]| == 0 then Err(EmptyValue)
    else if NumberSep !in d[num][0] then Ok(d)
    else
      var parts := Split(d[num][0], NumberSep);
      if |parts| != 2 then Err(TooManyParts)
      else
        var i := IndexOf(d[num][0], NumberSep);
        assert |Split(d[num][0][i + 1..], NumberSep)| == 1;
        assert NumberSep !in parts[1];
        assert d[num][0] == parts[0] + [NumberSep] + parts[1];
        Ok(d[num := [parts[0]]][tot := [parts[1]]])
  }

  /** The dict branch of `xx_total_correct`: track number first, then disc number. */
  function SplitTotals(d: TagDict): (r: Result<TagDict, TagError>)
    ensures r.Err? <==> BadNumber(d, "tracknumber") || BadNumber(d, "discnumber")
    ensures r.Ok? ==> forall k | k in d && k !in NumberFields :: k in r.value && r.value[k] == d[k]
    ensures r.Ok? ==> forall k | k in r.value && k !in NumberFields :: k in d
    ensures r.Ok? ==> SplitForm(r.value)
    ensures r.Ok? ==> SplitPair(d, r.value, "tracknumber", "tracktotal")
    ensures r.Ok? ==> SplitPair(d, r.value, "discnumber", "disctotal")
  {
    var d1 :- SplitNumber(d, "tracknumber", "tracktotal");
    SplitNumber(d1, "discnumber", "disctotal")
  }

  const NumberFields: set<string> := {"tracknumber", "tracktotal", "discnumber", "disctotal"}

  /** Number fields hold a first value without "/": the form the dict branch leaves behind. */
  predicate SplitForm(d: TagDict)
  {
    forall num | num in {"tracknumber", "discnumber"} && num in d :: |d[num]| > 0 && NumberSep !in d[num][0]
  }

  /** A dict already in split form is what the dict branch returns it as; so the branch is idempotent. */
  lemma SplitTotalsIdempotent(d: TagDict)
    requires SplitTotals(d).Ok?
    ensures SplitTotals(SplitTotals(d).value) == SplitTotals(d)
  {
    var r := SplitTotals(d).value;
    assert "tracknumber" in r ==> |r["tracknumber"]| > 0 && NumberSep !in r["tracknumber"][0];
    assert SplitNumber(r, "tracknumber", "tracktotal") == Ok(r);
    assert "discnumber" in r ==> |r["discnumber"]| > 0 && NumberSep !in r["discnumber"][0];
  }

  // ---------------------------------------------------------------------------
  // xx_total_correct, ID3 branch: number and total are merged into "N/M"

  /** `frame.text[0]`. */
  function FirstText(f: Frame): (r: Result<string, TagError>)
    ensures r.Ok? <==> f.text.Some? && |f.text.value| > 0
    ensures r.Ok? ==> r.value == f.text.value[0]
  {
    if f.text.None? then Err(MissingText)
    else if |f.text.value| == 0 then Err(EmptyValue)
    else Ok(f.text.value[0])
  }

  /** The text frame `id` holding the single value "N/M". */
  function NumberFrame(id: string, n: string, t: string): Frame
  {
    Frame(id, None, Some([n + [NumberSep] + t]))
  }

  /**
    When both the number frame and the TXXX total frame are present, the
    number frame becomes "N/M" from the first value of each and the total
    frame is deleted; otherwise the tag is left as it is.
   */
  function MergeNumber(frames: Frames, numId: string, totKey: string): (r: Result<Frames, TagError>)
    requires numId != totKey
    ensures r.Err? <==> numId in frames && totKey in frames && (FirstText(frames[numId]).Err? || FirstText(frames[totKey]).Err?)
    ensures r.Ok? && numId in frames && totKey in frames ==>
              r.value.Keys == frames.Keys - {totKey}
              && r.value[numId] == NumberFrame(numId, FirstText(frames[numId]).value, FirstText(frames[totKey]).value)
    ensures r.Ok? ==> forall k | k in frames && k != numId && k != totKey :: k in r.value && r.value[k] == frames[k]
    ensures r.Ok? && !(numId in frames && totKey in frames) ==> r.value == frames
  {
    if totKey in frames && numId in frames then
      var n :- FirstText(frames[numId]);
      var t :- FirstText(frames[totKey]);
      Ok(frames[numId := NumberFrame(numId, n, t)] - {totKey})
    else
      Ok(frames)
  }

  /** The ID3 branch of `xx_total_correct`: TRCK with TXXX:tracktotal, then TPOS with TXXX:disctotal. */
  /** Merging `numId` with `totKey` raises: both frames are present and one of them has no first text. */
  predicate MergeFails(frames: Frames, numId: string, totKey: string)
  {
    numId in frames && totKey in frames && (FirstText(frames[numId]).Err? || FirstText(frames[totKey]).Err?)
  }

  /**
    What the ID3 branch does to one pair of frames: when both are present,
    the number frame holds the single text "N/M" built from their first texts
    and the total frame is gone; otherwise both are as they were.
   */
  ghost predicate MergedPair(frames: Frames, r: Frames, numId: string, totKey: string)
  {
    if numId in frames && totKey in frames then
      FirstText(frames[numId]).Ok? && FirstText(frames[totKey]).Ok? && numId in r && totKey !in r
      && r[numId] == NumberFrame(numId, frames[numId].text.value[0], frames[totKey].text.value[0])
    else
      SameAt(frames, r, numId) && SameAt(frames, r, totKey)
  }

  function MergeTotals(frames: Frames): (r: Result<Frames, TagError>)
    ensures r.Err? <==> MergeFails(frames, "TRCK", "TXXX:tracktotal") || MergeFails(frames, "TPOS", "TXXX:disctotal")
    ensures r.Ok? ==> MergedPair(frames, r.value, "TRCK", "TXXX:tracktotal")
    ensures r.Ok? ==> MergedPair(frames, r.value, "TPOS", "TXXX:disctotal")
    ensures r.Ok? ==> forall k | k in frames && k !in NumberFrameKeys :: k in r.value && r.value[k] == frames[k]
    ensures r.Ok? ==> r.value.Keys <= frames.Keys
    ensures r.Ok? ==> "TRCK" in frames && "TXXX:tracktotal" in frames ==> "TXXX:tracktotal" !in r.value
    ensures r.Ok? ==> "TPOS" in frames && "TXXX:disctotal" in frames ==> "TXXX:disctotal" !in r.value
  {
    var m1 :- MergeNumber(frames, "TRCK", "TXXX:tracktotal");
    MergeNumber(m1, "TPOS", "TXXX:disctotal")
  }

  const NumberFrameKeys: set<string> := {"TRCK", "TXXX:tracktotal", "TPOS", "TXXX:disctotal"}

  /** `copy_tag_dict_to_mp3` without the save: add every field as a frame, then merge the totals. */
  function CopyTagDict(cfg: Config, frames: Frames, d: TagDict): (r: Result<Frames, TagError>)
    requires ValidConfig(cfg)
  {
    var added :- AddFields(cfg, frames, d);
    MergeTotals(added)
  }
}
