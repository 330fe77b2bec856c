/**
  The tag round trip: a FLAC file's field dict written into a fresh MP3 tag by
  `copy_tag_dict_to_mp3` and read back by `id3_tags_as_dict` gives the same
  dict, for every dict whose number fields are in the form the dict branch of
  `xx_total_correct` leaves behind. This is what makes the tag comparison of
  `_copy_music_changed` report "equal" for a file whose tags were copied.

  The proof goes through the dict the ID3 branch effectively produces
  (`MergeNumberFields`): frames are built from it, read back as it, and the
  dict branch splits it back into the original.
 */
module TagRoundTrip {
  import opened Wrappers
  import opened Text
  import opened Settings
  import opened Tags

  /**
    The configuration facts the round trip relies on: the number fields are
    stored in TRCK and TPOS, the totals are not in the table (so they become
    TXXX frames), and no frame of the table is among the frames to ignore.
   */
  predicate RoundTripConfig(cfg: Config)
  {
    && ValidConfig(cfg)
    && "tracknumber" in cfg.vorbisToId3 && cfg.vorbisToId3["tracknumber"] == "TRCK"
    && "discnumber" in cfg.vorbisToId3 && cfg.vorbisToId3["discnumber"] == "TPOS"
    && "tracktotal" !in cfg.vorbisToId3 && "disctotal" !in cfg.vorbisToId3
    && (forall name | name in cfg.vorbisToId3 :: cfg.vorbisToId3[name] !in cfg.id3FramesToIgnore)
  }

  /** The shipped configuration has everything the round trip needs, and knows every frame of its table. */
  lemma DefaultRoundTripConfig()
    ensures RoundTripConfig(Default)
    ensures forall d: TagDict :: FramesKnown(Default, d)
  {
    DefaultValid();
    DefaultIdsNotIgnored();
    DefaultIdsKnown();
    DefaultNumberEntries();
  }

  lemma DefaultNumberEntries()
    ensures "tracknumber" in DefaultTable && DefaultTable["tracknumber"] == "TRCK"
    ensures "discnumber" in DefaultTable && DefaultTable["discnumber"] == "TPOS"
    ensures "tracktotal" !in DefaultTable && "disctotal" !in DefaultTable
  {
  }

  /**
    The frames of an MP3 file just written by the encoder: each under its own
    four-character id, and each one the script ignores when reading tags
    (the encoder's TSSE frame).
   */
  predicate EncoderFrames(cfg: Config, start: Frames)
  {
    forall k | k in start :: |k| == 4 && start[k].id == k && k in cfg.id3FramesToIgnore
  }

  /**
    A number field the round trip can carry: its first value holds no "/";
    and when its total is there too, both are single values and the total
    holds no "/" either.
   */
  predicate NumberSafe(d: TagDict, num: string, tot: string)
  {
    && (num in d ==> |d[num]| > 0 && NumberSep !in d[num][0])
    && (num in d && tot in d ==> |d[num]| == 1 && |d[tot]| == 1 && NumberSep !in d[tot][0])
  }

  predicate RoundTripSafe(d: TagDict)
  {
    NumberSafe(d, "tracknumber", "tracktotal") && NumberSafe(d, "discnumber", "disctotal")
  }

  /** What merging a number with its total does, stated on the field dict: "N" and "M" become "N/M". */
  function MergeNumberField(d: TagDict, num: string, tot: string): (r: TagDict)
    requires num != tot
    ensures forall k | k != num && k != tot :: (k in r <==> k in d) && (k in d ==> r[k] == d[k])
    ensures num in d && tot in d && |d[num]| > 0 && |d[tot]| > 0 ==>
              num in r && tot !in r && r[num] == [d[num][0] + [NumberSep] + d[tot][0]]
    ensures !(num in d && tot in d && |d[num]| > 0 && |d[tot]| > 0) ==> r == d
  {
    if num in d && tot in d && |d[num]| > 0 && |d[tot]| > 0 then
      d[num := [d[num][0] + [NumberSep] + d[tot][0]]] - {tot}
    else
      d
  }

  /** Both merges, track first, as the ID3 branch does them. */
  function MergeNumberFields(d: TagDict): TagDict
  {
    MergeNumberField(MergeNumberField(d, "tracknumber", "tracktotal"), "discnumber", "disctotal")
  }

  // ---------------------------------------------------------------------------
  // Building the frames: the ID3 branch on frames built from a dict

  lemma MergeAlgebra<K, V>(s: map<K, V>, b: map<K, V>, a: K, t: K, x: V, y: V, z: V)
    requires a != t && t !in s && t !in b
    ensures (s + b[a := x][t := y])[a := z] - {t} == s + b[a := z]
  {
  }

  lemma RemoveTwo(e: TagDict, num: string, tot: string)
    requires num in e && tot in e && num != tot
    ensures e == (e - {num, tot})[num := e[num]][tot := e[tot]]
  {
    MapsEqual(e, (e - {num, tot})[num := e[num]][tot := e[tot]]);
  }

  /** The encoder's frames are never under the key of a field's frame. */
  lemma EncoderKeyIsNoFieldKey(cfg: Config, start: Frames, name: string)
    requires RoundTripConfig(cfg) && EncoderFrames(cfg, start)
    ensures FieldKey(cfg, name) !in start
  {
    if name !in cfg.vorbisToId3 {
      assert |FieldKey(cfg, name)| >= 5;
    }
  }

  /** Where the number frame and the total frame of one merge are, in frames built from `e`. */
  lemma NumberKeysOfFieldFrames(cfg: Config, start: Frames, e: TagDict, num: string, tot: string)
    requires RoundTripConfig(cfg) && EncoderFrames(cfg, start) && FramesKnown(cfg, e)
    requires num in cfg.vorbisToId3 && tot !in cfg.vorbisToId3
    ensures cfg.vorbisToId3[num] in start + FieldFrames(cfg, e) <==> num in e
    ensures "TXXX:" + tot in start + FieldFrames(cfg, e) <==> tot in e
  {
    assert FieldKey(cfg, num) == cfg.vorbisToId3[num] && FieldKey(cfg, tot) == "TXXX:" + tot;
    EncoderKeyIsNoFieldKey(cfg, start, num);
    EncoderKeyIsNoFieldKey(cfg, start, tot);
    FieldKeyInFieldFrames(cfg, e, num);
    FieldKeyInFieldFrames(cfg, e, tot);
  }

  /**
    One merge of the ID3 branch, on the encoder's frames plus the frames built
    from `e`, gives the frames built from the merged dict.
   */
  lemma MergeNumberOfFieldFrames(cfg: Config, start: Frames, e: TagDict, num: string, tot: string)
    requires RoundTripConfig(cfg) && EncoderFrames(cfg, start) && FramesKnown(cfg, e)
    requires num in cfg.vorbisToId3 && tot !in cfg.vorbisToId3
    requires num in e && tot in e ==> |e[num]| > 0 && |e[tot]| > 0
    ensures FramesKnown(cfg, MergeNumberField(e, num, tot))
    ensures MergeNumber(start + FieldFrames(cfg, e), cfg.vorbisToId3[num], "TXXX:" + tot)
            == Ok(start + FieldFrames(cfg, MergeNumberField(e, num, tot)))
  {
    NumberKeysOfFieldFrames(cfg, start, e, num, tot);
    if num in e && tot in e {
      MergeBothOfFieldFrames(cfg, start, e, num, tot);
    }
  }

  lemma MergeBothOfFieldFrames(cfg: Config, start: Frames, e: TagDict, num: string, tot: string)
    requires RoundTripConfig(cfg) && EncoderFrames(cfg, start) && FramesKnown(cfg, e)
    requires num in cfg.vorbisToId3 && tot !in cfg.vorbisToId3
    requires num in e && tot in e && |e[num]| > 0 && |e[tot]| > 0
    ensures FramesKnown(cfg, MergeNumberField(e, num, tot))
    ensures MergeNumber(start + FieldFrames(cfg, e), cfg.vorbisToId3[num], "TXXX:" + tot)
            == Ok(start + FieldFrames(cfg, MergeNumberField(e, num, tot)))
  {
    var base := e - {num, tot};
    FieldFramesOfBoth(cfg, e, num, tot);
    EncoderKeyIsNoFieldKey(cfg, start, tot);
    MergeNumberOnUpdates(start, FieldFrames(cfg, base), cfg.vorbisToId3[num], "TXXX:" + tot,
                         GetId3Frame(cfg, num, e[num]).value, GetId3Frame(cfg, tot, e[tot]).value);
  }

  /** The frames built from `e` and from its merged form, around the frames of the other fields. */
  lemma FieldFramesOfBoth(cfg: Config, e: TagDict, num: string, tot: string)
    requires ValidConfig(cfg) && FramesKnown(cfg, e)
    requires num in cfg.vorbisToId3 && tot !in cfg.vorbisToId3
    requires num in e && tot in e && |e[num]| > 0 && |e[tot]| > 0
    ensures FramesKnown(cfg, e - {num, tot}) && FramesKnown(cfg, MergeNumberField(e, num, tot))
    ensures "TXXX:" + tot !in FieldFrames(cfg, e - {num, tot})
    ensures FieldFrames(cfg, e) == FieldFrames(cfg, e - {num, tot})
              [cfg.vorbisToId3[num] := GetId3Frame(cfg, num, e[num]).value]["TXXX:" + tot := GetId3Frame(cfg, tot, e[tot]).value]
    ensures FieldFrames(cfg, MergeNumberField(e, num, tot)) == FieldFrames(cfg, e - {num, tot})
              [cfg.vorbisToId3[num] := NumberFrame(cfg.vorbisToId3[num], e[num][0], e[tot][0])]
  {
    var n := e[num][0];
    var t := e[tot][0];
    var base := e - {num, tot};
    assert MergeNumberField(e, num, tot) == base[num := [n + [NumberSep] + t]];
    RemoveTwo(e, num, tot);
    FieldFramesStep(cfg, base, num, e[num]);
    FieldFramesStep(cfg, base[num := e[num]], tot, e[tot]);
    FieldFramesStep(cfg, base, num, [n + [NumberSep] + t]);
    FieldKeyInFieldFrames(cfg, base, tot);
  }

  /** The merge, on a tag holding the number frame and the total frame on top of other frames. */
  lemma MergeNumberOnUpdates(s: Frames, b: Frames, numId: string, totKey: string, x: Frame, y: Frame)
    requires numId != totKey && totKey !in s && totKey !in b
    requires FirstText(x).Ok? && FirstText(y).Ok?
    ensures MergeNumber(s + b[numId := x][totKey := y], numId, totKey)
            == Ok(s + b[numId := NumberFrame(numId, FirstText(x).value, FirstText(y).value)])
  {
    MergeAlgebra(s, b, numId, totKey, x, y, NumberFrame(numId, FirstText(x).value, FirstText(y).value));
  }

  /** The ID3 branch of `xx_total_correct` on frames built from `d` gives the frames built from the merged dict. */
  lemma MergeTotalsOfFieldFrames(cfg: Config, start: Frames, d: TagDict)
    requires RoundTripConfig(cfg) && EncoderFrames(cfg, start) && FramesKnown(cfg, d) && RoundTripSafe(d)
    ensures FramesKnown(cfg, MergeNumberFields(d))
    ensures MergeTotals(start + FieldFrames(cfg, d)) == Ok(start + FieldFrames(cfg, MergeNumberFields(d)))
  {
    TrackMergeOfFieldFrames(cfg, start, d);
    TrackMergeKeepsDisc(d);
    DiscMergeOfFieldFrames(cfg, start, MergeNumberField(d, "tracknumber", "tracktotal"));
  }

  lemma TrackMergeKeepsDisc(d: TagDict)
    requires RoundTripSafe(d)
    ensures var e := MergeNumberField(d, "tracknumber", "tracktotal");
            "discnumber" in e && "disctotal" in e ==> |e["discnumber"]| > 0 && |e["disctotal"]| > 0
  {
    var e := MergeNumberField(d, "tracknumber", "tracktotal");
    assert "discnumber" in e ==> "discnumber" in d && e["discnumber"] == d["discnumber"];
    assert "disctotal" in e ==> "disctotal" in d && e["disctotal"] == d["disctotal"];
  }

  lemma TrackMergeOfFieldFrames(cfg: Config, start: Frames, d: TagDict)
    requires RoundTripConfig(cfg) && EncoderFrames(cfg, start) && FramesKnown(cfg, d) && RoundTripSafe(d)
    ensures FramesKnown(cfg, MergeNumberField(d, "tracknumber", "tracktotal"))
    ensures MergeNumber(start + FieldFrames(cfg, d), "TRCK", "TXXX:tracktotal")
            == Ok(start + FieldFrames(cfg, MergeNumberField(d, "tracknumber", "tracktotal")))
  {
    assert "TXXX:" + "tracktotal" == "TXXX:tracktotal";
    MergeNumberOfFieldFrames(cfg, start, d, "tracknumber", "tracktotal");
  }

  lemma DiscMergeOfFieldFrames(cfg: Config, start: Frames, e: TagDict)
    requires RoundTripConfig(cfg) && EncoderFrames(cfg, start) && FramesKnown(cfg, e)
    requires "discnumber" in e && "disctotal" in e ==> |e["discnumber"]| > 0 && |e["disctotal"]| > 0
    ensures FramesKnown(cfg, MergeNumberField(e, "discnumber", "disctotal"))
    ensures MergeNumber(start + FieldFrames(cfg, e), "TPOS", "TXXX:disctotal")
            == Ok(start + FieldFrames(cfg, MergeNumberField(e, "discnumber", "disctotal")))
  {
    assert "TXXX:" + "disctotal" == "TXXX:disctotal";
    MergeNumberOfFieldFrames(cfg, start, e, "discnumber", "disctotal");
  }

  // ---------------------------------------------------------------------------
  // Reading the frames back

  /** Every frame built from a field reads back as that field; the encoder's frames read back as nothing. */
  lemma ContributionsOfFieldFrames(cfg: Config, start: Frames, e: TagDict)
    requires RoundTripConfig(cfg) && EncoderFrames(cfg, start) && FramesKnown(cfg, e)
    ensures forall n | n in e :: FieldKey(cfg, n) in start + FieldFrames(cfg, e)
              && Contribution(cfg, (start + FieldFrames(cfg, e))[FieldKey(cfg, n)]) == Some((n, e[n]))
    ensures forall k | k in start + FieldFrames(cfg, e) && Contribution(cfg, (start + FieldFrames(cfg, e))[k]).Some? ::
              exists n | n in e :: k == FieldKey(cfg, n)
  {
    var m := start + FieldFrames(cfg, e);
    forall n | n in e
      ensures FieldKey(cfg, n) in m && Contribution(cfg, m[FieldKey(cfg, n)]) == Some((n, e[n]))
    {
      ContributionInvertsGetId3Frame(cfg, n, e[n]);
    }
    forall k | k in m && Contribution(cfg, m[k]).Some?
      ensures exists n | n in e :: k == FieldKey(cfg, n)
    {
    }
  }

  /** `id3_tags_as_dict`'s loop reads the frames built from `e` back as `e`, whatever their order. */
  lemma ReadBackFieldFrames(cfg: Config, start: Frames, e: TagDict, raw: TagDict)
    requires RoundTripConfig(cfg) && EncoderFrames(cfg, start) && FramesKnown(cfg, e)
    requires RawDictOf(cfg, start + FieldFrames(cfg, e), raw)
    ensures raw == e
  {
    ContributionsOfFieldFrames(cfg, start, e);
    ReadBackExactly(cfg, start + FieldFrames(cfg, e), e, raw);
  }

  /**
    When every field of `e` is read from its own frame and every other frame
    reads as nothing, the loop of `id3_tags_as_dict` can only build `e`.
   */
  lemma ReadBackExactly(cfg: Config, m: Frames, e: TagDict, raw: TagDict)
    requires ValidConfig(cfg)
    requires forall n | n in e :: FieldKey(cfg, n) in m && Contribution(cfg, m[FieldKey(cfg, n)]) == Some((n, e[n]))
    requires forall k | k in m && Contribution(cfg, m[k]).Some? :: exists n | n in e :: k == FieldKey(cfg, n)
    requires RawDictOf(cfg, m, raw)
    ensures raw == e
  {
    forall n | n in raw ensures n in e && raw[n] == e[n] {
      var k :| k in m && Contribution(cfg, m[k]) == Some((n, raw[n]));
      var n' :| n' in e && k == FieldKey(cfg, n');
    }
    forall n | n in e ensures n in raw {
      assert Contribution(cfg, m[FieldKey(cfg, n)]).value.0 == n;
    }
    MapsEqual(raw, e);
  }

  // ---------------------------------------------------------------------------
  // Splitting the numbers again

  /** The dict branch undoes one merge. */
  lemma SplitNumberUndoesMerge(e: TagDict, num: string, tot: string)
    requires num != tot && NumberSafe(e, num, tot)
    ensures SplitNumber(MergeNumberField(e, num, tot), num, tot) == Ok(e)
  {
    if num in e && tot in e {
      var n := e[num][0];
      var t := e[tot][0];
      var x := MergeNumberField(e, num, tot);
      assert e[num] == [n] && e[tot] == [t];
      SplitAt(n, NumberSep, t);
      assert Split(n + [NumberSep] + t, NumberSep) == [n, t];
      MapsEqual(x[num := [n]][tot := [t]], e);
    }
  }

  lemma MergesCommute(d: TagDict)
    ensures MergeNumberFields(d)
            == MergeNumberField(MergeNumberField(d, "discnumber", "disctotal"), "tracknumber", "tracktotal")
  {
    var a := MergeNumberFields(d);
    var b := MergeNumberField(MergeNumberField(d, "discnumber", "disctotal"), "tracknumber", "tracktotal");
    MapsEqual(a, b);
  }

  /** The dict branch of `xx_total_correct` turns the merged dict back into the original. */
  lemma SplitTotalsUndoesMerge(d: TagDict)
    requires RoundTripSafe(d)
    ensures SplitTotals(MergeNumberFields(d)) == Ok(d)
  {
    MergesCommute(d);
    var e := MergeNumberField(d, "discnumber", "disctotal");
    assert NumberSafe(e, "tracknumber", "tracktotal");
    SplitNumberUndoesMerge(e, "tracknumber", "tracktotal");
    SplitNumberUndoesMerge(d, "discnumber", "disctotal");
  }

  // ---------------------------------------------------------------------------
  // The round trip

  /**
    Copying a field dict into the tag of a freshly encoded MP3 file succeeds,
    and reading that tag back, in any frame order, gives the dict again.
   */
  lemma TagsRoundTrip(cfg: Config, start: Frames, d: TagDict, raw: TagDict)
    requires RoundTripConfig(cfg) && EncoderFrames(cfg, start) && FramesKnown(cfg, d) && RoundTripSafe(d)
    ensures CopyTagDict(cfg, start, d).Ok?
    ensures RawDictOf(cfg, CopyTagDict(cfg, start, d).value, raw) ==> SplitTotals(raw) == Ok(d)
  {
    MergeTotalsOfFieldFrames(cfg, start, d);
    assert CopyTagDict(cfg, start, d) == Ok(start + FieldFrames(cfg, MergeNumberFields(d)));
    if RawDictOf(cfg, CopyTagDict(cfg, start, d).value, raw) {
      ReadBackFieldFrames(cfg, start, MergeNumberFields(d), raw);
      SplitTotalsUndoesMerge(d);
    }
  }
}
