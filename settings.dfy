/**
  The script's configuration block (synch_to_mp3.py lines 25-76), as one
  immutable value passed to the scanner, the tag canonicaliser and the planner.
  The paths of the two trees, the encoder programs and their quality setting
  only matter to the external collaborators and are not part of it.
 */
module Settings {

  datatype Config = Config(
    /** Names of directories that are skipped, together with everything below them. */
    dirsToIgnore: set<string>,
    /** Vorbis field name to ID3 frame id; other fields become TXXX frames. */
    vorbisToId3: map<string, string>,
    /** ID3 frame ids dropped when frames are turned back into fields. */
    id3FramesToIgnore: set<string>,
    /** The frame ids the ID3 library knows (mutagen's `id3.Frames` registry). */
    knownFrames: set<string>,
    /** Whether the per-action log lines are suppressed. */
    silent: bool)

  /** The mapping table is one-to-one, so `{v: k for k, v in table.items()}` loses nothing. */
  predicate TableInjective(table: map<string, string>)
  {
    forall a, b {:trigger table[a], table[b]} | a in table && b in table && a != b :: table[a] != table[b]
  }

  /**
    What the tag code relies on: the table is one-to-one and names
    four-character frame ids other than TXXX, so no two field names end up
    under the same frame key; and TXXX frames, which carry every field outside
    the table, are not among the frames to ignore.
   */
  predicate ValidConfig(c: Config)
  {
    && TableInjective(c.vorbisToId3)
    && (forall name | name in c.vorbisToId3 :: |c.vorbisToId3[name]| == 4 && c.vorbisToId3[name] != "TXXX")
    && "TXXX" !in c.id3FramesToIgnore
  }

  const DefaultTable: map<string, string> := map[
    "artist"      := "TPE1",
    "title"       := "TIT2",
    "album"       := "TALB",
    "albumartist" := "TPE2",
    "tracknumber" := "TRCK",
    "discnumber"  := "TPOS",
    "composer"    := "TCOM",
    "conductor"   := "TPE3",
    "remixer"     := "TPE4",
    "date"        := "TDRC",
    "comment"     := "COMM",
    "genre"       := "TCON",
    "language"    := "TLAN",
    "bpm"         := "TBPM"
  ]

  /** The frame ids of the ID3v2.4 native-frames document. */
  const Id3v24Frames: set<string> := {
    "AENC", "APIC", "ASPI", "COMM", "COMR", "ENCR", "EQU2", "ETCO", "GEOB", "GRID",
    "LINK", "MCDI", "MLLT", "OWNE", "PRIV", "PCNT", "POPM", "POSS", "RBUF", "RVA2",
    "RVRB", "SEEK", "SIGN", "SYLT", "SYTC", "TALB", "TBPM", "TCOM", "TCON", "TCOP",
    "TDEN", "TDLY", "TDOR", "TDRC", "TDRL", "TDTG", "TENC", "TEXT", "TFLT", "TIPL",
    "TIT1", "TIT2", "TIT3", "TKEY", "TLAN", "TLEN", "TMCL", "TMED", "TMOO", "TOAL",
    "TOFN", "TOLY", "TOPE", "TOWN", "TPE1", "TPE2", "TPE3", "TPE4", "TPOS", "TPRO",
    "TPUB", "TRCK", "TRSN", "TRSO", "TSOA", "TSOP", "TSOT", "TSRC", "TSSE", "TSST",
    "TXXX", "UFID", "USER", "USLT", "WCOM", "WCOP", "WOAF", "WOAR", "WOAS", "WORS",
    "WPAY", "WPUB", "WXXX"
  }

  /** The configuration as the script ships it. */
  const Default: Config := Config(
    dirsToIgnore := {"example-1", "example-2"},
    vorbisToId3 := DefaultTable,
    id3FramesToIgnore := {"TSSE"},
    knownFrames := Id3v24Frames,
    silent := false)

  /** The shipped table is one-to-one. */
  lemma DefaultTableInjective()
    ensures TableInjective(DefaultTable)
  {
    var back := map[
      "TPE1" := "artist", "TIT2" := "title", "TALB" := "album", "TPE2" := "albumartist",
      "TRCK" := "tracknumber", "TPOS" := "discnumber", "TCOM" := "composer", "TPE3" := "conductor",
      "TPE4" := "remixer", "TDRC" := "date", "COMM" := "comment", "TCON" := "genre",
      "TLAN" := "language", "TBPM" := "bpm"];
    assert forall a | a in DefaultTable :: DefaultTable[a] in back && back[DefaultTable[a]] == a;
  }

  /** The shipped table names four-character frame ids other than TXXX. */
  lemma DefaultTableIds()
    ensures forall name | name in DefaultTable :: |DefaultTable[name]| == 4 && DefaultTable[name] != "TXXX"
  {
  }

  /** No frame id of the shipped table is among the frames the shipped configuration ignores. */
  lemma DefaultIdsNotIgnored()
    ensures forall name | name in Default.vorbisToId3 :: Default.vorbisToId3[name] !in Default.id3FramesToIgnore
  {
    assert forall name | name in DefaultTable :: DefaultTable[name] != "TSSE";
  }

  /** Every frame id of the shipped table is an ID3v2.4 frame. */
  lemma DefaultIdsKnown()
    ensures forall name | name in Default.vorbisToId3 :: Default.vorbisToId3[name] in Default.knownFrames
  {
    assert forall name | name in DefaultTable :: DefaultTable[name] in Id3v24Frames;
  }

  /** The shipped configuration is one the tag code can work with. */
  lemma DefaultValid()
    ensures ValidConfig(Default)
  {
    DefaultTableInjective();
    DefaultTableIds();
  }
}
