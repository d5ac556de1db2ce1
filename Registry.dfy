/**
 * The song catalogue: songs by track id, and the loader that fills it
 * from a CSV file whose first line names the columns.
 */
module Registry {
  import opened Wrappers
  import opened Songs
  import Csv

  // ---------------------------------------------------------------------
  // Header lookup
  // ---------------------------------------------------------------------

  /** The position of the first column of `header` called `name`, or -1 when there is none. */
  function ColumnIndex(header: seq<string>, name: string): (i: int)
    ensures -1 <= i < |header|
    ensures i >= 0 ==> header[i] == name && forall k :: 0 <= k < i ==> header[k] != name
    ensures i == -1 <==> name !in header
  {
    if |header| == 0 then -1
    else if header[0] == name then 0
    else
      var k := ColumnIndex(header[1..], name);
      if k < 0 then -1 else k + 1
  }

  /** The header lookup, as a linear scan. */
  method FindColumn(header: seq<string>, name: string) returns (i: int)
    ensures i == ColumnIndex(header, name)
  {
    for j := 0 to |header|
      invariant forall k :: 0 <= k < j ==> header[k] != name
    {
      if header[j] == name {
        return j;
      }
    }
    return -1;
  }

  /** The position of every column the loader reads (-1 for a column the header lacks). */
  datatype Columns = Columns(
    trackId: int, trackName: int, trackArtist: int, popularity: int,
    albumId: int, albumName: int, albumReleaseDate: int,
    playlistName: int, playlistId: int, playlistGenre: int, playlistSubgenre: int,
    danceability: int, energy: int, key: int, loudness: int, mode: int,
    speechiness: int, acousticness: int, instrumentalness: int, liveness: int,
    valence: int, tempo: int, durationMs: int)

  /** The column positions named by a header line's fields. */
  function ColumnsOf(h: seq<string>): Columns
  {
    Columns(
      ColumnIndex(h, "track_id"), ColumnIndex(h, "track_name"), ColumnIndex(h, "track_artist"),
      ColumnIndex(h, "track_popularity"), ColumnIndex(h, "track_album_id"), ColumnIndex(h, "track_album_name"),
      ColumnIndex(h, "track_album_release_date"), ColumnIndex(h, "playlist_name"), ColumnIndex(h, "playlist_id"),
      ColumnIndex(h, "playlist_genre"), ColumnIndex(h, "playlist_subgenre"), ColumnIndex(h, "danceability"),
      ColumnIndex(h, "energy"), ColumnIndex(h, "key"), ColumnIndex(h, "loudness"), ColumnIndex(h, "mode"),
      ColumnIndex(h, "speechiness"), ColumnIndex(h, "acousticness"), ColumnIndex(h, "instrumentalness"),
      ColumnIndex(h, "liveness"), ColumnIndex(h, "valence"), ColumnIndex(h, "tempo"), ColumnIndex(h, "duration_ms"))
  }

  /** Look up every column the loader reads. */
  method LocateColumns(h: seq<string>) returns (c: Columns)
    ensures c == ColumnsOf(h)
  {
    var trackId := FindColumn(h, "track_id");
    var trackName := FindColumn(h, "track_name");
    var trackArtist := FindColumn(h, "track_artist");
    var popularity := FindColumn(h, "track_popularity");
    var albumId := FindColumn(h, "track_album_id");
    var albumName := FindColumn(h, "track_album_name");
    var albumDate := FindColumn(h, "track_album_release_date");
    var playlistName := FindColumn(h, "playlist_name");
    var playlistId := FindColumn(h, "playlist_id");
    var playlistGenre := FindColumn(h, "playlist_genre");
    var playlistSubgenre := FindColumn(h, "playlist_subgenre");
    var dance := FindColumn(h, "danceability");
    var energy := FindColumn(h, "energy");
    var key := FindColumn(h, "key");
    var loud := FindColumn(h, "loudness");
    var mode := FindColumn(h, "mode");
    var speech := FindColumn(h, "speechiness");
    var acoust := FindColumn(h, "acousticness");
    var instr := FindColumn(h, "instrumentalness");
    var live := FindColumn(h, "liveness");
    var valence := FindColumn(h, "valence");
    var tempo := FindColumn(h, "tempo");
    var dur := FindColumn(h, "duration_ms");
    c := Columns(trackId, trackName, trackArtist, popularity, albumId, albumName, albumDate,
      playlistName, playlistId, playlistGenre, playlistSubgenre, dance, energy, key, loud, mode,
      speech, acoust, instr, live, valence, tempo, dur);
  }

  // ---------------------------------------------------------------------
  // One data row
  // ---------------------------------------------------------------------

  /** The field at position `i`, or the empty string when there is no such field. */
  function At(cols: seq<string>, i: int): (v: string)
    ensures 0 <= i < |cols| ==> v == cols[i]
    ensures !(0 <= i < |cols|) ==> v == ""
  {
    if 0 <= i < |cols| then cols[i] else ""
  }

  /** The text a numeric column hands to the number parser: an empty field reads as "0". */
  function NumberText(cols: seq<string>, i: int): (t: string)
    ensures t != ""
    ensures At(cols, i) != "" ==> t == At(cols, i)
  {
    if At(cols, i) == "" then "0" else At(cols, i)
  }

  /**
   * An integer column: 0 when the header lacks the column, otherwise the
   * parser's reading of its text; None is the parser rejecting the text.
   */
  function IntField(cols: seq<string>, i: int, parseInt: string -> Option<int>): Option<int>
  {
    if i >= 0 then parseInt(NumberText(cols, i)) else Some(0)
  }

  /** A real column, read like an integer column. */
  function RealField(cols: seq<string>, i: int, parseReal: string -> Option<real>): Option<real>
  {
    if i >= 0 then parseReal(NumberText(cols, i)) else Some(0.0)
  }

  /** What one data row yields: nothing (no track id), a parse failure, or a song record. */
  datatype RowResult = Skip | Failed | Row(info: SongInfo)

  /** The record one data row's fields describe. */
  function ParseRow(cols: seq<string>, c: Columns, parseInt: string -> Option<int>,
                    parseReal: string -> Option<real>): RowResult
  {
    var id := At(cols, c.trackId);
    if id == "" then Skip
    else
      var pop := IntField(cols, c.popularity, parseInt);
      var dance := RealField(cols, c.danceability, parseReal);
      var energy := RealField(cols, c.energy, parseReal);
      var key := IntField(cols, c.key, parseInt);
      var loud := RealField(cols, c.loudness, parseReal);
      var mode := IntField(cols, c.mode, parseInt);
      var speech := RealField(cols, c.speechiness, parseReal);
      var acoust := RealField(cols, c.acousticness, parseReal);
      var instr := RealField(cols, c.instrumentalness, parseReal);
      var live := RealField(cols, c.liveness, parseReal);
      var valence := RealField(cols, c.valence, parseReal);
      var tempo := RealField(cols, c.tempo, parseReal);
      var dur := IntField(cols, c.durationMs, parseInt);
      if pop.None? || dance.None? || energy.None? || key.None? || loud.None? || mode.None? ||
         speech.None? || acoust.None? || instr.None? || live.None? || valence.None? ||
         tempo.None? || dur.None?
      then Failed
      else Row(SongInfo(id, At(cols, c.trackName), At(cols, c.trackArtist), pop.value,
        At(cols, c.albumId), At(cols, c.albumName), At(cols, c.albumReleaseDate),
        At(cols, c.playlistName), At(cols, c.playlistId), At(cols, c.playlistGenre),
        At(cols, c.playlistSubgenre),
        RawFeatures(dance.value, energy.value, key.value, loud.value, mode.value, speech.value,
          acoust.value, instr.value, live.value, valence.value, tempo.value, dur.value)))
  }

  /** Every numeric column of the row is one the parsers accept. */
  predicate NumbersParse(cols: seq<string>, c: Columns, parseInt: string -> Option<int>,
                         parseReal: string -> Option<real>)
  {
    IntField(cols, c.popularity, parseInt).Some? && RealField(cols, c.danceability, parseReal).Some? &&
    RealField(cols, c.energy, parseReal).Some? && IntField(cols, c.key, parseInt).Some? &&
    RealField(cols, c.loudness, parseReal).Some? && IntField(cols, c.mode, parseInt).Some? &&
    RealField(cols, c.speechiness, parseReal).Some? && RealField(cols, c.acousticness, parseReal).Some? &&
    RealField(cols, c.instrumentalness, parseReal).Some? && RealField(cols, c.liveness, parseReal).Some? &&
    RealField(cols, c.valence, parseReal).Some? && RealField(cols, c.tempo, parseReal).Some? &&
    IntField(cols, c.durationMs, parseInt).Some?
  }

  /**
   * A row is skipped exactly when its track id is missing or empty, and
   * fails exactly when it has an id and some numeric column is rejected.
   * An accepted row keeps that id.
   */
  lemma ParseRowCases(cols: seq<string>, c: Columns, parseInt: string -> Option<int>,
                      parseReal: string -> Option<real>)
    ensures ParseRow(cols, c, parseInt, parseReal).Skip? <==> At(cols, c.trackId) == ""
    ensures ParseRow(cols, c, parseInt, parseReal).Failed? <==>
      At(cols, c.trackId) != "" && !NumbersParse(cols, c, parseInt, parseReal)
    ensures ParseRow(cols, c, parseInt, parseReal).Row? ==>
      ParseRow(cols, c, parseInt, parseReal).info.trackId == At(cols, c.trackId) != ""
  {
  }

  /** In an accepted row, every column the header lacks reads as the empty string or as 0. */
  lemma MissingColumnsReadEmpty(cols: seq<string>, c: Columns, parseInt: string -> Option<int>,
                      parseReal: string -> Option<real>)
    ensures ParseRow(cols, c, parseInt, parseReal).Row? ==>
      var info := ParseRow(cols, c, parseInt, parseReal).info;
      var f := info.features;
      (c.trackName < 0 ==> info.trackName == "") && (c.trackArtist < 0 ==> info.trackArtist == "") &&
      (c.albumId < 0 ==> info.albumId == "") && (c.albumName < 0 ==> info.albumName == "") &&
      (c.albumReleaseDate < 0 ==> info.albumReleaseDate == "") &&
      (c.playlistName < 0 ==> info.playlistName == "") && (c.playlistId < 0 ==> info.playlistId == "") &&
      (c.playlistGenre < 0 ==> info.playlistGenre == "") &&
      (c.playlistSubgenre < 0 ==> info.playlistSubgenre == "") &&
      (c.popularity < 0 ==> info.popularity == 0) && (c.danceability < 0 ==> f.danceability == 0.0) &&
      (c.energy < 0 ==> f.energy == 0.0) && (c.key < 0 ==> f.key == 0) &&
      (c.loudness < 0 ==> f.loudness == 0.0) && (c.mode < 0 ==> f.mode == 0) &&
      (c.speechiness < 0 ==> f.speechiness == 0.0) && (c.acousticness < 0 ==> f.acousticness == 0.0) &&
      (c.instrumentalness < 0 ==> f.instrumentalness == 0.0) && (c.liveness < 0 ==> f.liveness == 0.0) &&
      (c.valence < 0 ==> f.valence == 0.0) && (c.tempo < 0 ==> f.tempo == 0.0) &&
      (c.durationMs < 0 ==> f.durationMs == 0)
  {
  }

  /** In an accepted row, every numeric column the header has holds the parser's reading of its text. */
  lemma PresentColumnsParsed(cols: seq<string>, c: Columns, parseInt: string -> Option<int>,
                      parseReal: string -> Option<real>)
    ensures ParseRow(cols, c, parseInt, parseReal).Row? ==>
      var info := ParseRow(cols, c, parseInt, parseReal).info;
      var f := info.features;
      (c.popularity >= 0 ==> parseInt(NumberText(cols, c.popularity)) == Some(info.popularity)) &&
      (c.danceability >= 0 ==> parseReal(NumberText(cols, c.danceability)) == Some(f.danceability)) &&
      (c.energy >= 0 ==> parseReal(NumberText(cols, c.energy)) == Some(f.energy)) &&
      (c.key >= 0 ==> parseInt(NumberText(cols, c.key)) == Some(f.key)) &&
      (c.loudness >= 0 ==> parseReal(NumberText(cols, c.loudness)) == Some(f.loudness)) &&
      (c.mode >= 0 ==> parseInt(NumberText(cols, c.mode)) == Some(f.mode)) &&
      (c.speechiness >= 0 ==> parseReal(NumberText(cols, c.speechiness)) == Some(f.speechiness)) &&
      (c.acousticness >= 0 ==> parseReal(NumberText(cols, c.acousticness)) == Some(f.acousticness)) &&
      (c.instrumentalness >= 0 ==> parseReal(NumberText(cols, c.instrumentalness)) == Some(f.instrumentalness)) &&
      (c.liveness >= 0 ==> parseReal(NumberText(cols, c.liveness)) == Some(f.liveness)) &&
      (c.valence >= 0 ==> parseReal(NumberText(cols, c.valence)) == Some(f.valence)) &&
      (c.tempo >= 0 ==> parseReal(NumberText(cols, c.tempo)) == Some(f.tempo)) &&
      (c.durationMs >= 0 ==> parseInt(NumberText(cols, c.durationMs)) == Some(f.durationMs))
  {
  }

  /** With a parser that accepts every text, a row with a track id is always accepted. */
  lemma TotalParsersAccept(cols: seq<string>, c: Columns, parseInt: string -> Option<int>,
                           parseReal: string -> Option<real>)
    requires forall t :: parseInt(t).Some?
    requires forall t :: parseReal(t).Some?
    requires At(cols, c.trackId) != ""
    ensures ParseRow(cols, c, parseInt, parseReal).Row?
  {
  }

  // ---------------------------------------------------------------------
  // The whole file
  // ---------------------------------------------------------------------

  /** The records accepted so far, and whether a parse failure ended the load. */
  datatype Outcome = Outcome(infos: seq<SongInfo>, failed: bool)

  /** The outcome after one more data line, given the outcome `o` of the lines before it. */
  function Step(o: Outcome, line: string, c: Columns, parseInt: string -> Option<int>,
                parseReal: string -> Option<real>): Outcome
  {
    if o.failed || line == "" then o
    else match ParseRow(Csv.Fields(Csv.Lex(line, 0, false)), c, parseInt, parseReal)
      case Skip => o
      case Failed => Outcome(o.infos, true)
      case Row(info) => Outcome(o.infos + [info], false)
  }

  /** The outcome of reading the data lines `rows` in order with column positions `c`. */
  function Scan(rows: seq<string>, c: Columns, parseInt: string -> Option<int>,
                parseReal: string -> Option<real>): Outcome
  {
    if |rows| == 0 then Outcome([], false)
    else Step(Scan(rows[..|rows| - 1], c, parseInt, parseReal), rows[|rows| - 1], c, parseInt, parseReal)
  }

  /** Reading the first `i + 1` lines is reading the first `i` and then line `i`. */
  lemma ScanPrefix(rows: seq<string>, i: nat, c: Columns, parseInt: string -> Option<int>,
                   parseReal: string -> Option<real>)
    requires i < |rows|
    ensures Scan(rows[..i + 1], c, parseInt, parseReal)
         == Step(Scan(rows[..i], c, parseInt, parseReal), rows[i], c, parseInt, parseReal)
  {
    assert rows[..i + 1][..i] == rows[..i];
  }

  /** The outcome of loading a file given as its lines; None is a file that cannot be opened. */
  function Load(file: Option<seq<string>>, parseInt: string -> Option<int>,
                parseReal: string -> Option<real>): Outcome
  {
    if file.None? || |file.value| == 0 then Outcome([], false)
    else Scan(file.value[1..], ColumnsOf(Csv.Fields(Csv.Lex(file.value[0], 0, false))), parseInt, parseReal)
  }

  /** What the loader reports: the number of accepted rows, or that a parser gave up. */
  datatype LoadResult = Loaded(count: nat) | Threw

  function Report(o: Outcome): LoadResult
  {
    if o.failed then Threw else Loaded(|o.infos|)
  }

  /**
   * Every accepted record has a non-empty track id, and there are at most
   * as many of them as non-empty data lines.
   */
  lemma {:induction false} ScanAccepted(rows: seq<string>, c: Columns, parseInt: string -> Option<int>,
                                        parseReal: string -> Option<real>)
    ensures forall i :: 0 <= i < |Scan(rows, c, parseInt, parseReal).infos| ==>
      Scan(rows, c, parseInt, parseReal).infos[i].trackId != ""
    ensures |Scan(rows, c, parseInt, parseReal).infos| <= NonEmpty(rows)
  {
    if |rows| > 0 {
      var front := rows[..|rows| - 1];
      ScanAccepted(front, c, parseInt, parseReal);
      var line := rows[|rows| - 1];
      if !Scan(front, c, parseInt, parseReal).failed && line != "" {
        ParseRowCases(Csv.Fields(Csv.Lex(line, 0, false)), c, parseInt, parseReal);
      }
    }
  }

  /** The number of non-empty lines. */
  function NonEmpty(rows: seq<string>): (n: nat)
    ensures n <= |rows|
  {
    if |rows| == 0 then 0
    else NonEmpty(rows[..|rows| - 1]) + (if rows[|rows| - 1] == "" then 0 else 1)
  }

  /** After a parse failure nothing further is read: later lines change nothing. */
  lemma {:induction false} FailureIsFinal(rows: seq<string>, more: seq<string>, c: Columns,
                                          parseInt: string -> Option<int>, parseReal: string -> Option<real>)
    requires Scan(rows, c, parseInt, parseReal).failed
    ensures Scan(rows + more, c, parseInt, parseReal) == Scan(rows, c, parseInt, parseReal)
    decreases |more|
  {
    if |more| > 0 {
      var front := more[..|more| - 1];
      assert (rows + more)[..|rows + more| - 1] == rows + front;
      FailureIsFinal(rows, front, c, parseInt, parseReal);
    } else {
      assert rows + more == rows;
    }
  }

  // ---------------------------------------------------------------------
  // The catalogue's contents as records
  // ---------------------------------------------------------------------

  /** The records of a catalogue, by track id. */
  function InfoMap(m: map<string, Song>): map<string, SongInfo>
  {
    map id | id in m :: m[id].info
  }

  /** The record map after adding `infos` in order, each replacing any record with the same id. */
  function AddAll(m: map<string, SongInfo>, infos: seq<SongInfo>): map<string, SongInfo>
  {
    if |infos| == 0 then m
    else
      var x := infos[|infos| - 1];
      AddAll(m, infos[..|infos| - 1])[x.trackId := x]
  }

  /** Every record is filed under its own track id. */
  ghost predicate KeyedById(m: map<string, SongInfo>)
  {
    forall id :: id in m ==> m[id].trackId == id
  }

  /** Some record in `infos` carries track id `id`. */
  ghost predicate Carries(infos: seq<SongInfo>, id: string)
  {
    exists i :: 0 <= i < |infos| && infos[i].trackId == id
  }

  /** A record sequence carries an id when its front does or its last record does. */
  lemma CarriesSnoc(infos: seq<SongInfo>, id: string)
    requires |infos| > 0
    ensures Carries(infos, id) <==> Carries(infos[..|infos| - 1], id) || infos[|infos| - 1].trackId == id
  {
    var front := infos[..|infos| - 1];
    if Carries(front, id) {
      var i :| 0 <= i < |front| && front[i].trackId == id;
      assert infos[i] == front[i];
    }
    if Carries(infos, id) && infos[|infos| - 1].trackId != id {
      var i :| 0 <= i < |infos| && infos[i].trackId == id;
      assert front[i] == infos[i];
    }
  }

  /**
   * Adding records in order: the ids present are the old ones plus the new
   * ones, a record filed under its own id stays so, and the map grows by at
   * most one entry per record.
   */
  lemma {:induction false} AddAllShape(m: map<string, SongInfo>, infos: seq<SongInfo>)
    ensures forall id :: id in AddAll(m, infos) <==> id in m || Carries(infos, id)
    ensures KeyedById(m) ==> KeyedById(AddAll(m, infos))
    ensures |AddAll(m, infos)| <= |m| + |infos|
  {
    if |infos| > 0 {
      AddAllShape(m, infos[..|infos| - 1]);
      forall id {
        CarriesSnoc(infos, id);
      }
    }
  }

  /** An id no added record carries keeps its old entry, or stays absent. */
  lemma {:induction false} UntouchedId(m: map<string, SongInfo>, infos: seq<SongInfo>, id: string)
    requires forall i :: 0 <= i < |infos| ==> infos[i].trackId != id
    ensures id in AddAll(m, infos) <==> id in m
    ensures id in m ==> AddAll(m, infos)[id] == m[id]
  {
    if |infos| > 0 {
      var front := infos[..|infos| - 1];
      assert forall i :: 0 <= i < |front| ==> front[i] == infos[i];
      UntouchedId(m, front, id);
    }
  }

  /** The record under an id is the last record added with that id. */
  lemma {:induction false} LastRecordWins(m: map<string, SongInfo>, infos: seq<SongInfo>, i: nat)
    requires i < |infos|
    requires forall j :: i < j < |infos| ==> infos[j].trackId != infos[i].trackId
    ensures infos[i].trackId in AddAll(m, infos)
    ensures AddAll(m, infos)[infos[i].trackId] == infos[i]
  {
    if i < |infos| - 1 {
      var front := infos[..|infos| - 1];
      assert front[i] == infos[i];
      assert forall j :: i < j < |front| ==> front[j] == infos[j];
      LastRecordWins(m, front, i);
    }
  }

  /**
   * Two accepted data lines with one track id: the load reports two rows
   * but leaves one catalogue entry, the later line's record.
   */
  lemma RepeatedIdCountsTwice(l1: string, l2: string, c: Columns, parseInt: string -> Option<int>,
                              parseReal: string -> Option<real>, a: SongInfo, b: SongInfo)
    requires l1 != "" && ParseRow(Csv.Fields(Csv.Lex(l1, 0, false)), c, parseInt, parseReal) == Row(a)
    requires l2 != "" && ParseRow(Csv.Fields(Csv.Lex(l2, 0, false)), c, parseInt, parseReal) == Row(b)
    requires a.trackId == b.trackId
    ensures Report(Scan([l1, l2], c, parseInt, parseReal)) == Loaded(2)
    ensures |AddAll(map[], Scan([l1, l2], c, parseInt, parseReal).infos)| == 1
    ensures AddAll(map[], Scan([l1, l2], c, parseInt, parseReal).infos)[a.trackId] == b
  {
    assert [l1, l2][..1] == [l1];
    assert [l1][..0] == [];
    assert Scan([l1], c, parseInt, parseReal) == Outcome([a], false);
    assert Scan([l1, l2], c, parseInt, parseReal) == Outcome([a, b], false);
    assert [a, b][..1] == [a];
    assert [a][..0] == [];
    assert AddAll(map[], [a]) == map[a.trackId := a];
    assert AddAll(map[], [a, b]) == map[a.trackId := b];
  }

  // ---------------------------------------------------------------------
  // The catalogue
  // ---------------------------------------------------------------------

  class SongRegistry {
    var byId: map<string, Song>

    /** Every song is filed under its own track id. */
    ghost predicate Valid()
      reads this
    {
      FiledById(byId)
    }

    /** An empty catalogue. */
    constructor()
      ensures Valid() && byId == map[]
    {
      byId := map[];
    }

    /** The song filed under `id`, or null when there is none. */
    function Get(id: string): (r: Song?)
      reads this
      ensures r != null <==> id in byId
      ensures r != null ==> r == byId[id] && (Valid() ==> r.info.trackId == id)
    {
      if id in byId then byId[id] else null
    }

    /** The number of distinct track ids in the catalogue. */
    function Size(): (r: nat)
      reads this
      ensures r == |byId.Keys|
      ensures r == 0 <==> byId == map[]
    {
      |byId|
    }

    /**
     * File `s` under its track id, replacing any song with that id; a null
     * song changes nothing. Only a new id makes the catalogue larger.
     */
    method AddSong(s: Song?)
      requires Valid()
      modifies this
      ensures Valid()
      ensures byId == if s == null then old(byId) else old(byId)[s.info.trackId := s]
      ensures forall id :: Get(id) == if s != null && id == s.info.trackId then s else old(Get(id))
      ensures Size() == old(Size()) + (if s != null && s.info.trackId !in old(byId) then 1 else 0)
    {
      if s == null {
        return;
      }
      byId := byId[s.info.trackId := s];
    }

    /**
     * Load the songs of a CSV file given as its lines (None when the file
     * cannot be opened). The first line names the columns; empty lines and
     * rows without a track id are skipped; every other row becomes a new
     * song filed under its id. When a number parser rejects a field the
     * load stops there: the songs added before stay, and the result says so.
     */
    method LoadFromCsv(file: Option<seq<string>>, parseInt: string -> Option<int>,
                       parseReal: string -> Option<real>) returns (r: LoadResult)
      requires Valid()
      modifies this
      ensures Valid()
      ensures r == Report(Load(file, parseInt, parseReal))
      ensures InfoMap(byId) == AddAll(InfoMap(old(byId)), Load(file, parseInt, parseReal).infos)
      ensures KeepsUntouched(old(byId), byId, Load(file, parseInt, parseReal).infos)
      ensures forall id :: Carries(Load(file, parseInt, parseReal).infos, id) ==>
        id in byId && fresh(byId[id]) && byId[id].userScore == 0
    {
      if file.None? || |file.value| == 0 {
        return Loaded(0);
      }
      var lines := file.value;
      var header := Csv.SplitRow(lines[0]);
      var c := LocateColumns(header);
      r := LoadRows(lines[1..], c, parseInt, parseReal);
    }

    /**
     * Read the data lines in order with column positions `c`, filing each
     * accepted record; stop at the first line a parser rejects.
     */
    method LoadRows(rows: seq<string>, c: Columns, parseInt: string -> Option<int>,
                    parseReal: string -> Option<real>) returns (r: LoadResult)
      requires Valid()
      modifies this
      ensures Valid()
      ensures r == Report(Scan(rows, c, parseInt, parseReal))
      ensures InfoMap(byId) == AddAll(InfoMap(old(byId)), Scan(rows, c, parseInt, parseReal).infos)
      ensures KeepsUntouched(old(byId), byId, Scan(rows, c, parseInt, parseReal).infos)
      ensures forall id :: Carries(Scan(rows, c, parseInt, parseReal).infos, id) ==>
        id in byId && fresh(byId[id]) && byId[id].userScore == 0
    {
      ghost var m0 := InfoMap(byId);
      ghost var start := byId;
      ghost var infos: seq<SongInfo> := [];
      ghost var made: set<Song> := {};
      var n := 0;
      var i := 0;
      while i < |rows|
        invariant 0 <= i <= |rows|
        invariant Scan(rows[..i], c, parseInt, parseReal) == Outcome(infos, false)
        invariant n == |infos|
        invariant InfoMap(byId) == AddAll(m0, infos)
        invariant Valid()
        invariant KeepsUntouched(start, byId, infos)
        invariant FiledAmong(byId, infos, made)
        invariant forall x :: x in made ==> fresh(x) && x.userScore == 0
        decreases |rows| - i
      {
        var line := rows[i];
        if line == "" {
          ScanKeeps(rows, i, c, parseInt, parseReal);
        } else {
          var cols := Csv.SplitRow(line);
          var row := ParseRow(cols, c, parseInt, parseReal);
          if row.Failed? {
            ScanStops(rows, i, c, parseInt, parseReal, infos);
            return Threw;
          } else if row.Skip? {
            ScanKeeps(rows, i, c, parseInt, parseReal);
          } else {
            ScanAdds(rows, i, c, parseInt, parseReal, infos, row.info);
            ghost var before := byId;
            var s := FileRecord(m0, infos, row.info);
            FilingStep(start, before, infos, made, s);
            infos := infos + [row.info];
            made := made + {s};
            n := n + 1;
          }
        }
        i := i + 1;
      }
      TakeAll(rows);
      return Loaded(n);
    }

    /** File a new song made from `info`, extending the records added so far by it. */
    method FileRecord(ghost m0: map<string, SongInfo>, ghost infos: seq<SongInfo>, info: SongInfo)
      returns (s: Song)
      requires Valid() && InfoMap(byId) == AddAll(m0, infos)
      modifies this
      ensures Valid() && InfoMap(byId) == AddAll(m0, infos + [info])
      ensures fresh(s) && s.info == info && s.userScore == 0
      ensures byId == old(byId)[info.trackId := s]
    {
      s := new Song(info);
      AddOneSong(m0, infos, byId, s);
      AddSong(s);
    }
  }

  /** Every id of `m0` that no record of `infos` carries still maps to the same song object. */
  ghost predicate KeepsUntouched(m0: map<string, Song>, m: map<string, Song>, infos: seq<SongInfo>)
  {
    forall id :: id in m0 && !Carries(infos, id) ==> id in m && m[id] == m0[id]
  }

  /** Every id some record of `infos` carries maps to a song of `made`. */
  ghost predicate FiledAmong(m: map<string, Song>, infos: seq<SongInfo>, made: set<Song>)
  {
    forall id :: Carries(infos, id) ==> id in m && m[id] in made
  }

  /** A record sequence with one more record carries an id when the shorter one does or the new record does. */
  lemma CarriesAppend(infos: seq<SongInfo>, x: SongInfo, id: string)
    ensures Carries(infos + [x], id) <==> Carries(infos, id) || x.trackId == id
  {
    CarriesSnoc(infos + [x], id);
    assert (infos + [x])[..|infos|] == infos;
  }

  /** Filing a new song `s` keeps the untouched ids and files the ids carried so far among the new songs. */
  lemma FilingStep(m0: map<string, Song>, m: map<string, Song>, infos: seq<SongInfo>, made: set<Song>, s: Song)
    requires KeepsUntouched(m0, m, infos) && FiledAmong(m, infos, made)
    ensures KeepsUntouched(m0, m[s.info.trackId := s], infos + [s.info])
    ensures FiledAmong(m[s.info.trackId := s], infos + [s.info], made + {s})
  {
    forall id {
      CarriesAppend(infos, s.info, id);
    }
  }

  /** Every song of `m` is filed under its own track id. */
  ghost predicate FiledById(m: map<string, Song>)
  {
    forall id :: id in m ==> m[id].info.trackId == id
  }

  /** A line that yields nothing leaves the outcome as it was. */
  lemma ScanKeeps(rows: seq<string>, i: nat, c: Columns, parseInt: string -> Option<int>,
                  parseReal: string -> Option<real>)
    requires i < |rows| && !Scan(rows[..i], c, parseInt, parseReal).failed
    requires rows[i] == "" || ParseRow(Csv.Fields(Csv.Lex(rows[i], 0, false)), c, parseInt, parseReal).Skip?
    ensures Scan(rows[..i + 1], c, parseInt, parseReal) == Scan(rows[..i], c, parseInt, parseReal)
  {
    ScanPrefix(rows, i, c, parseInt, parseReal);
  }

  /** An accepted line appends its record. */
  lemma ScanAdds(rows: seq<string>, i: nat, c: Columns, parseInt: string -> Option<int>,
                 parseReal: string -> Option<real>, infos: seq<SongInfo>, info: SongInfo)
    requires i < |rows| && Scan(rows[..i], c, parseInt, parseReal) == Outcome(infos, false)
    requires rows[i] != "" && ParseRow(Csv.Fields(Csv.Lex(rows[i], 0, false)), c, parseInt, parseReal) == Row(info)
    ensures Scan(rows[..i + 1], c, parseInt, parseReal) == Outcome(infos + [info], false)
  {
    ScanPrefix(rows, i, c, parseInt, parseReal);
  }

  /** A line a parser rejects ends the load: the whole file's outcome is a failure after the records so far. */
  lemma ScanStops(rows: seq<string>, i: nat, c: Columns, parseInt: string -> Option<int>,
                  parseReal: string -> Option<real>, infos: seq<SongInfo>)
    requires i < |rows| && Scan(rows[..i], c, parseInt, parseReal) == Outcome(infos, false)
    requires rows[i] != "" && ParseRow(Csv.Fields(Csv.Lex(rows[i], 0, false)), c, parseInt, parseReal).Failed?
    ensures Scan(rows, c, parseInt, parseReal) == Outcome(infos, true)
  {
    ScanPrefix(rows, i, c, parseInt, parseReal);
    StepFails(Scan(rows[..i], c, parseInt, parseReal), rows[i], c, parseInt, parseReal);
    FailureIsFinal(rows[..i + 1], rows[i + 1..], c, parseInt, parseReal);
    SplitJoin(rows, i + 1);
  }

  /** A line a parser rejects turns an unfailed outcome into a failure with the same records. */
  lemma StepFails(o: Outcome, line: string, c: Columns, parseInt: string -> Option<int>,
                  parseReal: string -> Option<real>)
    requires !o.failed && line != ""
    requires ParseRow(Csv.Fields(Csv.Lex(line, 0, false)), c, parseInt, parseReal).Failed?
    ensures Step(o, line, c, parseInt, parseReal) == Outcome(o.infos, true)
  {
  }

  lemma TakeAll<T>(s: seq<T>)
    ensures s[..|s|] == s
  {
  }

  lemma SplitJoin<T>(s: seq<T>, k: nat)
    requires k <= |s|
    ensures s[..k] + s[k..] == s
  {
  }

  /** Filing a new song extends the catalogue's records. */
  lemma AddOneSong(m0: map<string, SongInfo>, infos: seq<SongInfo>, m: map<string, Song>, s: Song)
    requires InfoMap(m) == AddAll(m0, infos)
    ensures InfoMap(m[s.info.trackId := s]) == AddAll(m0, infos + [s.info])
  {
    AddAllSnoc(m0, infos, s.info);
    InfoMapUpdate(m, s);
  }

  /** Adding one more record files it under its id. */
  lemma AddAllSnoc(m: map<string, SongInfo>, infos: seq<SongInfo>, x: SongInfo)
    ensures AddAll(m, infos + [x]) == AddAll(m, infos)[x.trackId := x]
  {
    assert (infos + [x])[..|infos|] == infos;
  }

  /** Filing a song updates the record map at the song's id. */
  lemma InfoMapUpdate(m: map<string, Song>, s: Song)
    ensures InfoMap(m[s.info.trackId := s]) == InfoMap(m)[s.info.trackId := s.info]
  {
  }
}
