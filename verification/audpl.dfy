/**
 * The audpl playlist codec (audpl.go): a line-oriented `key=value` format
 * with a `title` header line, then per-track key blocks that each begin
 * with a `uri` line.
 */
module Audpl {
  import opened NetUrl

  // ---------------------------------------------------------------------------
  // Data model
  // ---------------------------------------------------------------------------

  /** One playlist entry. `uri` is None where Go's `URI *url.URL` is nil. */
  datatype Track = Track(
    uri: Option<Url>,
    title: string,
    artist: string,
    album: string,
    albumArtist: string,
    comment: string,
    genre: string,
    year: string,
    trackNumber: string,
    length: string,
    bitrate: string,
    codec: string,
    quality: string)

  datatype Playlist = Playlist(name: string, tracks: seq<Track>)

  /** Go's zero value of Track: a nil URI and every string empty. */
  const EmptyTrack := Track(None, "", "", "", "", "", "", "", "", "", "", "", "")

  /** The eleven string fields a key line can set (every field but `URI` and `Comment`). */
  datatype Field =
    Title | Artist | Album | AlbumArtist | Genre | Year | TrackNumber | Length | Bitrate | Codec | Quality

  /** The fields in the order the decoder's switch lists them and SaveTo writes them. */
  const FieldOrder: seq<Field> :=
    [Title, Artist, Album, AlbumArtist, Genre, Year, TrackNumber, Length, Bitrate, Codec, Quality]

  /** The key naming each field in the file. */
  function Key(f: Field): string
  {
    match f
    case Title => "title"
    case Artist => "artist"
    case Album => "album"
    case AlbumArtist => "album-artist"
    case Genre => "genre"
    case Year => "year"
    case TrackNumber => "track-number"
    case Length => "length"
    case Bitrate => "bitrate"
    case Codec => "codec"
    case Quality => "quality"
  }

  /** The cases of the decoder's switch other than `uri`: the field a key sets,
      or None for a key the decoder ignores (`comment` among them). */
  function KeyField(k: string): (f: Option<Field>)
    ensures f.Some? ==> Key(f.value) == k
    ensures k == "uri" || k == "comment" ==> f.None?
  {
    match k
    case "title" => Some(Title)
    case "artist" => Some(Artist)
    case "album" => Some(Album)
    case "album-artist" => Some(AlbumArtist)
    case "genre" => Some(Genre)
    case "year" => Some(Year)
    case "track-number" => Some(TrackNumber)
    case "length" => Some(Length)
    case "bitrate" => Some(Bitrate)
    case "codec" => Some(Codec)
    case "quality" => Some(Quality)
    case _ => None
  }

  /** Every field's key is recognised by the switch as that field, contains no
      '=' and is neither `uri` nor `comment`. */
  lemma KeyFieldOfKey(f: Field)
    ensures KeyField(Key(f)) == Some(f)
    ensures '=' !in Key(f) && Key(f) != "uri" && Key(f) != "comment"
  {
  }

  function Get(t: Track, f: Field): string
  {
    match f
    case Title => t.title
    case Artist => t.artist
    case Album => t.album
    case AlbumArtist => t.albumArtist
    case Genre => t.genre
    case Year => t.year
    case TrackNumber => t.trackNumber
    case Length => t.length
    case Bitrate => t.bitrate
    case Codec => t.codec
    case Quality => t.quality
  }

  /** Two tracks are equal when their URI, comment and eleven keyed fields are. */
  lemma TrackExt(t: Track, u: Track)
    requires t.uri == u.uri && t.comment == u.comment
    requires forall f :: Get(t, f) == Get(u, f)
    ensures t == u
  {
    assert Get(t, Title) == Get(u, Title) && Get(t, Artist) == Get(u, Artist);
    assert Get(t, Album) == Get(u, Album) && Get(t, AlbumArtist) == Get(u, AlbumArtist);
    assert Get(t, Genre) == Get(u, Genre) && Get(t, Year) == Get(u, Year);
    assert Get(t, TrackNumber) == Get(u, TrackNumber) && Get(t, Length) == Get(u, Length);
    assert Get(t, Bitrate) == Get(u, Bitrate) && Get(t, Codec) == Get(u, Codec);
    assert Get(t, Quality) == Get(u, Quality);
  }

  // ---------------------------------------------------------------------------
  // splitKV
  // ---------------------------------------------------------------------------

  /** Index of the first '=' in `text`, or |text| when there is none. */
  function FirstEq(text: string): (i: nat)
    ensures i <= |text|
    ensures i < |text| ==> text[i] == '='
    ensures forall j :: 0 <= j < i ==> text[j] != '='
  {
    if text == [] || text[0] == '=' then 0 else 1 + FirstEq(text[1..])
  }

  /** strings.SplitN(text, "=", 2): the key before the first '=' and the value
      after it, taken verbatim (nothing is percent-decoded); a text without '='
      is all key with an empty value. */
  function SplitKV(text: string): (kv: (string, string))
    ensures '=' !in kv.0
    ensures '=' in text ==> kv.0 + "=" + kv.1 == text
    ensures '=' !in text ==> kv == (text, "")
  {
    var i := FirstEq(text);
    if i == |text| then (text, "")
    else
      assert text[..i] + "=" + text[i + 1..] == text;
      (text[..i], text[i + 1..])
  }

  /** SplitKV undoes the `k=v` formatting of writePair whenever the key has no '='. */
  lemma SplitKVJoin(k: string, v: string)
    requires '=' !in k
    ensures SplitKV(k + "=" + v) == (k, v)
  {
    var text := k + "=" + v;
    assert text[|k|] == '=';
    assert text[..|k|] == k;
    assert text[|k| + 1..] == v;
  }

  // ---------------------------------------------------------------------------
  // Parse
  // ---------------------------------------------------------------------------

  /** Sets one field, leaving every other field, the URI and the comment as they were. */
  function SetField(t: Track, f: Field, v: string): (t': Track)
    ensures t'.uri == t.uri && t'.comment == t.comment
    ensures forall g :: Get(t', g) == if g == f then v else Get(t, g)
  {
    match f
    case Title => t.(title := v)
    case Artist => t.(artist := v)
    case Album => t.(album := v)
    case AlbumArtist => t.(albumArtist := v)
    case Genre => t.(genre := v)
    case Year => t.(year := v)
    case TrackNumber => t.(trackNumber := v)
    case Length => t.(length := v)
    case Bitrate => t.(bitrate := v)
    case Codec => t.(codec := v)
    case Quality => t.(quality := v)
  }

  /** The decoder's switch for a key other than `uri`: a recognised key sets
      its own field and an unrecognised one changes nothing. */
  function Assign(t: Track, k: string, v: string): (r: Track)
    ensures r.uri == t.uri && r.comment == t.comment
    ensures forall g :: Get(r, g) == if KeyField(k) == Some(g) then v else Get(t, g)
  {
    match KeyField(k)
    case Some(f) => SetField(t, f, v)
    case None => t
  }

  /** What bufio.Scanner yields: the lines of the stream, and whether
      scanning stopped on a read error rather than at the end of input. */
  datatype Scan = Scan(lines: seq<string>, readError: bool)

  datatype ParseError =
    | MissingHeader                    // the first Scan failed on a read error
    | UnexpectedHeaderKey(key: string) // the first line's key is not "title"
    | InvalidName(raw: string)         // url.PathUnescape rejected the header value
    | ScanFailed                       // a read error after the header

  /** The decoder's state between lines: the tracks appended so far and the
      `track` accumulator. */
  datatype Acc = Acc(tracks: seq<Track>, current: Track)

  const Start := Acc([], EmptyTrack)

  /** One iteration of Parse's loop. A `uri` line appends the accumulator when
      it holds a URI and then overwrites only its URI; other lines go through
      the switch. The accumulator is never reset. */
  function Step(lib: UrlLib, acc: Acc, line: string): (r: Acc)
    ensures r.tracks == acc.tracks || (acc.current.uri.Some? && r.tracks == acc.tracks + [acc.current])
    ensures r.current.uri != acc.current.uri ==> SplitKV(line).0 == "uri"
    ensures r.current.comment == acc.current.comment
  {
    var (k, v) := SplitKV(line);
    if k == "uri" then
      Acc(if acc.current.uri.Some? then acc.tracks + [acc.current] else acc.tracks,
          acc.current.(uri := lib.parse(v)))
    else
      Acc(acc.tracks, Assign(acc.current, k, v))
  }

  /** The loop run over `lines`, first to last. */
  function Run(lib: UrlLib, acc: Acc, lines: seq<string>): (r: Acc)
    ensures |acc.tracks| <= |r.tracks| <= |acc.tracks| + |lines|
    ensures r.current.comment == acc.current.comment
    decreases |lines|
  {
    if lines == [] then acc
    else Step(lib, Run(lib, acc, lines[..|lines| - 1]), lines[|lines| - 1])
  }

  /** Parse's (playlist, error) pair. An empty stream without a read error
      gives neither, because errors.Wrap of a nil error is nil. */
  function Decode(lib: UrlLib, input: Scan): (Option<Playlist>, Option<ParseError>)
  {
    if input.lines == [] then
      (None, if input.readError then Some(MissingHeader) else None)
    else
      var (k, raw) := SplitKV(input.lines[0]);
      if k != "title" then (None, Some(UnexpectedHeaderKey(k)))
      else match lib.pathUnescape(raw)
        case None => (None, Some(InvalidName(raw)))
        case Some(name) =>
          if input.readError then (None, Some(ScanFailed))
          else
            var acc := Run(lib, Start, input.lines[1..]);
            (Some(Playlist(name, acc.tracks + [acc.current])), None)
  }

  method Parse(lib: UrlLib, input: Scan) returns (pl: Option<Playlist>, err: Option<ParseError>)
    ensures (pl, err) == Decode(lib, input)
    ensures pl.Some? ==> err.None? && |pl.value.tracks| >= 1
  {
    if |input.lines| == 0 {
      return None, if input.readError then Some(MissingHeader) else None;
    }
    var (k, plURI) := SplitKV(input.lines[0]);
    if k != "title" {
      return None, Some(UnexpectedHeaderKey(k));
    }
    var plname := lib.pathUnescape(plURI);
    if plname.None? {
      return None, Some(InvalidName(plURI));
    }

    var body := input.lines[1..];
    var tracks: seq<Track> := [];
    var track := EmptyTrack;
    var i := 0;
    while i < |body|
      invariant 0 <= i <= |body|
      invariant Acc(tracks, track) == Run(lib, Start, body[..i])
    {
      ghost var before := Acc(tracks, track);
      var (key, v) := SplitKV(body[i]);
      if key == "uri" {
        if track.uri.Some? {
          tracks := tracks + [track];
        }
        track := track.(uri := lib.parse(v));
      } else {
        track := Assign(track, key, v);
      }
      assert Acc(tracks, track) == Step(lib, before, body[i]);
      assert Run(lib, Start, body[..i + 1]) == Step(lib, before, body[i]) by {
        assert body[..i + 1][..i] == body[..i];
      }
      i := i + 1;
    }
    assert body[..i] == body;

    if input.readError {
      return None, Some(ScanFailed);
    }
    tracks := tracks + [track];
    return Some(Playlist(plname.value, tracks)), None;
  }

  // ---------------------------------------------------------------------------
  // SaveTo and writePair
  // ---------------------------------------------------------------------------

  /** SaveTo path-escapes these five fields and writes the other six raw. */
  predicate PathEscaped(f: Field)
  {
    f in {Title, Artist, Album, AlbumArtist, Genre}
  }

  /** The text SaveTo writes for a field. */
  function Encoded(lib: UrlLib, t: Track, f: Field): string
  {
    if PathEscaped(f) then lib.pathEscape(Get(t, f)) else Get(t, f)
  }

  /** The six fields outside PathEscaped are written raw, a text that
      path-escaping leaves alone is written as it is, and when path-escaping
      maps only "" to "", a field is written empty exactly when it is empty. */
  lemma EncodedText(lib: UrlLib, t: Track, f: Field)
    ensures f in {Year, TrackNumber, Length, Bitrate, Codec, Quality} ==> Encoded(lib, t, f) == Get(t, f)
    ensures lib.pathEscape(Get(t, f)) == Get(t, f) ==> Encoded(lib, t, f) == Get(t, f)
    ensures PathEscapeKeepsEmptiness(lib) ==> (Encoded(lib, t, f) == "" <==> Get(t, f) == "")
  {
  }

  /** The flat `key, value, key, value, ...` arguments for the fields `fs`. */
  function FieldPairs(lib: UrlLib, t: Track, fs: seq<Field>): (pairs: seq<string>)
    ensures |pairs| == 2 * |fs|
  {
    if fs == [] then [] else [Key(fs[0]), Encoded(lib, t, fs[0])] + FieldPairs(lib, t, fs[1..])
  }

  /** The arguments for the `j`-th field are its key and the text written for it. */
  lemma {:induction false} FieldPairsAt(lib: UrlLib, t: Track, fs: seq<Field>, j: nat)
    requires j < |fs|
    ensures FieldPairs(lib, t, fs)[2 * j] == Key(fs[j])
    ensures FieldPairs(lib, t, fs)[2 * j + 1] == Encoded(lib, t, fs[j])
    decreases j
  {
    if j > 0 {
      FieldPairsAt(lib, t, fs[1..], j - 1);
      assert fs[1..][j - 1] == fs[j];
    }
  }

  /** FieldPairsAt for every listed field at once. */
  lemma FieldPairsIndexed(lib: UrlLib, t: Track, fs: seq<Field>)
    ensures forall j :: 0 <= j < |fs| ==>
              FieldPairs(lib, t, fs)[2 * j] == Key(fs[j]) && FieldPairs(lib, t, fs)[2 * j + 1] == Encoded(lib, t, fs[j])
  {
    forall j | 0 <= j < |fs| {
      FieldPairsAt(lib, t, fs, j);
    }
  }

  /** The arguments SaveTo passes to writePair for one track: the URI's text,
      then the eleven fields in FieldOrder. */
  function TrackPairs(lib: UrlLib, t: Track): (pairs: seq<string>)
    requires t.uri.Some?
    ensures |pairs| == 2 + 2 * |FieldOrder|
    ensures pairs[0] == "uri" && pairs[1] == lib.urlString(t.uri.value)
    ensures forall j :: 0 <= j < |FieldOrder| ==>
              pairs[2 * j + 2] == Key(FieldOrder[j]) && pairs[2 * j + 3] == Encoded(lib, t, FieldOrder[j])
  {
    FieldPairsIndexed(lib, t, FieldOrder);
    ["uri", lib.urlString(t.uri.value)] + FieldPairs(lib, t, FieldOrder)
  }

  /** The lines writePair emits: `k=v` for each pair whose value is non-empty. */
  function PairLines(pairs: seq<string>): seq<string>
    requires |pairs| % 2 == 0
    decreases |pairs|
  {
    if pairs == [] then []
    else (if pairs[1] == "" then [] else [pairs[0] + "=" + pairs[1]]) + PairLines(pairs[2..])
  }

  method WritePair(pairs: seq<string>) returns (written: seq<string>)
    requires |pairs| % 2 == 0
    ensures written == PairLines(pairs)
  {
    written := [];
    var i := 0;
    while i < |pairs|
      invariant 0 <= i <= |pairs| && i % 2 == 0
      invariant written + PairLines(pairs[i..]) == PairLines(pairs)
    {
      var k, v := pairs[i], pairs[i + 1];
      assert pairs[i..][2..] == pairs[i + 2..];
      if v != "" {
        written := written + [k + "=" + v];
      }
      i := i + 2;
    }
  }

  predicate AllHaveUri(tracks: seq<Track>)
  {
    forall i :: 0 <= i < |tracks| ==> tracks[i].uri.Some?
  }

  function TrackLines(lib: UrlLib, t: Track): seq<string>
    requires t.uri.Some?
  {
    PairLines(TrackPairs(lib, t))
  }

  function TracksLines(lib: UrlLib, tracks: seq<Track>): seq<string>
    requires AllHaveUri(tracks)
  {
    if tracks == [] then [] else TrackLines(lib, tracks[0]) + TracksLines(lib, tracks[1..])
  }

  function HeaderLine(lib: UrlLib, name: string): string
  {
    "title=" + lib.queryEscape(name)
  }

  /** Everything SaveTo writes, one element per `\n`-terminated line. */
  function SaveLines(lib: UrlLib, p: Playlist): seq<string>
    requires AllHaveUri(p.tracks)
  {
    [HeaderLine(lib, p.name)] + TracksLines(lib, p.tracks)
  }

  /** Every track must hold a URI: `track.URI.String()` on a nil URI panics. */
  method SaveTo(lib: UrlLib, p: Playlist) returns (written: seq<string>)
    requires AllHaveUri(p.tracks)
    ensures written == SaveLines(lib, p)
    ensures |written| >= 1 && written[0] == "title=" + lib.queryEscape(p.name)
  {
    written := ["title=" + lib.queryEscape(p.name)];
    var i := 0;
    while i < |p.tracks|
      invariant 0 <= i <= |p.tracks|
      invariant written + TracksLines(lib, p.tracks[i..]) == SaveLines(lib, p)
    {
      var track := p.tracks[i];
      assert p.tracks[i..][1..] == p.tracks[i + 1..];
      var lines := WritePair(TrackPairs(lib, track));
      written := written + lines;
      i := i + 1;
    }
  }
}
