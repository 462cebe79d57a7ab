/**
 * What SaveTo (audpl.go) writes for one track: one `key=value` line per key
 * whose written value is non-empty, keys in a fixed order with `uri` first,
 * the five name-like fields path-escaped, and never a `comment` line.
 */
module EncodeProperties {
  import opened NetUrl
  import opened Audpl
  import opened DecodeProperties

  /** Position of a field in FieldOrder. */
  function Rank(f: Field): nat
  {
    match f
    case Title => 0
    case Artist => 1
    case Album => 2
    case AlbumArtist => 3
    case Genre => 4
    case Year => 5
    case TrackNumber => 6
    case Length => 7
    case Bitrate => 8
    case Codec => 9
    case Quality => 10
  }

  /** Position of a key among those SaveTo writes (`uri` first); -1 for any other key. */
  function KeyRank(k: string): int
  {
    if k == "uri" then 0
    else match KeyField(k)
      case Some(f) => 1 + Rank(f)
      case None => -1
  }

  predicate Increasing(fs: seq<Field>)
  {
    forall i, j :: 0 <= i < j < |fs| ==> Rank(fs[i]) < Rank(fs[j])
  }

  lemma FieldOrderIncreasing()
    ensures Increasing(FieldOrder)
    ensures forall f :: f in FieldOrder
  {
    assert forall i :: 0 <= i < |FieldOrder| ==> Rank(FieldOrder[i]) == i;
    forall f ensures f in FieldOrder {
      assert FieldOrder[Rank(f)] == f;
    }
  }

  /** `line` is the `k=v` line writePair emits for the pair starting at the
      even index j, whose value is non-empty. */
  predicate PairLineAt(pairs: seq<string>, j: int, line: string)
  {
    0 <= j < |pairs| - 1 && j % 2 == 0 && pairs[j + 1] != "" && line == pairs[j] + "=" + pairs[j + 1]
  }

  /** writePair emits exactly one line per pair with a non-empty value, and
      nothing else. */
  lemma {:induction false} PairLinesMembers(pairs: seq<string>)
    requires |pairs| % 2 == 0
    ensures |PairLines(pairs)| <= |pairs| / 2
    ensures forall line :: line in PairLines(pairs) <==> exists j :: PairLineAt(pairs, j, line)
    decreases |pairs|
  {
    if pairs != [] {
      var rest := pairs[2..];
      var head := if pairs[1] == "" then [] else [pairs[0] + "=" + pairs[1]];
      assert PairLines(pairs) == head + PairLines(rest);
      PairLinesMembers(rest);
      forall line
        ensures line in PairLines(pairs) <==> exists j :: PairLineAt(pairs, j, line)
      {
        if line in head {
          assert PairLineAt(pairs, 0, line);
        }
        if exists j :: PairLineAt(rest, j, line) {
          var j :| PairLineAt(rest, j, line);
          assert PairLineAt(pairs, j + 2, line);
        }
        if exists j :: PairLineAt(pairs, j, line) {
          var j :| PairLineAt(pairs, j, line);
          if j > 0 {
            assert PairLineAt(rest, j - 2, line);
          } else {
            assert line in head;
          }
        }
      }
    }
  }

  /** The lines writePair emits for the fields `fs`. */
  function FieldLines(lib: UrlLib, t: Track, fs: seq<Field>): seq<string>
  {
    PairLines(FieldPairs(lib, t, fs))
  }

  lemma FieldLinesCons(lib: UrlLib, t: Track, fs: seq<Field>)
    requires fs != []
    ensures FieldLines(lib, t, fs) ==
      (if Encoded(lib, t, fs[0]) == "" then [] else [Key(fs[0]) + "=" + Encoded(lib, t, fs[0])])
      + FieldLines(lib, t, fs[1..])
  {
    assert FieldPairs(lib, t, fs)[2..] == FieldPairs(lib, t, fs[1..]);
  }

  /** `line` is `k=v` for the key k of a field f of `fs`, and v is the
      non-empty text SaveTo writes for f. */
  predicate SoundLine(lib: UrlLib, t: Track, fs: seq<Field>, line: string)
  {
    KeyField(KeyOf(line)).Some?
    && KeyField(KeyOf(line)).value in fs
    && ValueOf(line) == Encoded(lib, t, KeyField(KeyOf(line)).value)
    && ValueOf(line) != ""
  }

  /** Every field line is sound for `fs`. */
  lemma {:induction false} FieldLinesSound(lib: UrlLib, t: Track, fs: seq<Field>)
    ensures forall line :: line in FieldLines(lib, t, fs) ==> SoundLine(lib, t, fs, line)
    decreases |fs|
  {
    if fs != [] {
      var f0, rest := fs[0], fs[1..];
      FieldLinesCons(lib, t, fs);
      FieldLinesSound(lib, t, rest);
      KeyFieldOfKey(f0);
      SplitKVJoin(Key(f0), Encoded(lib, t, f0));
      assert forall line :: SoundLine(lib, t, rest, line) ==> SoundLine(lib, t, fs, line);
    }
  }

  /** Position in SaveTo's key order of the key of `line`. */
  function LineRank(line: string): int
  {
    KeyRank(KeyOf(line))
  }

  /** Each line's key comes strictly later in SaveTo's key order than the
      key of the line before it. */
  predicate KeysAscend(lines: seq<string>)
  {
    forall i :: 0 < i < |lines| ==> LineRank(lines[i - 1]) < LineRank(lines[i])
  }

  /** A field's line sits at that field's position in the key order. */
  lemma FieldLineRank(f: Field, v: string)
    ensures LineRank(Key(f) + "=" + v) == 1 + Rank(f)
  {
    KeyFieldOfKey(f);
    SplitKVJoin(Key(f), v);
  }

  /** A `uri` line comes first in the key order. */
  lemma UriLineRank(v: string)
    ensures LineRank("uri=" + v) == 0
  {
    assert "uri=" + v == "uri" + "=" + v;
    SplitKVJoin("uri", v);
  }

  /** Putting a line in front of ascending lines whose keys all come later
      keeps them ascending. */
  lemma ConsAscend(first: string, tail: seq<string>)
    requires KeysAscend(tail)
    requires forall line :: line in tail ==> LineRank(first) < LineRank(line)
    ensures KeysAscend([first] + tail)
  {
    var lines := [first] + tail;
    forall i | 0 < i < |lines|
      ensures LineRank(lines[i - 1]) < LineRank(lines[i])
    {
      assert lines[i] == tail[i - 1];
      if i == 1 {
        assert tail[0] in tail;
      } else {
        assert lines[i - 1] == tail[i - 2];
      }
    }
  }

  /** When `fs` follows FieldOrder, so do the keys of its lines. */
  lemma {:induction false} FieldLinesOrdered(lib: UrlLib, t: Track, fs: seq<Field>)
    requires Increasing(fs)
    ensures KeysAscend(FieldLines(lib, t, fs))
    ensures fs != [] ==> forall line :: line in FieldLines(lib, t, fs) ==> LineRank(line) >= 1 + Rank(fs[0])
    decreases |fs|
  {
    if fs != [] {
      var f0, rest := fs[0], fs[1..];
      FieldLinesCons(lib, t, fs);
      var tail := FieldLines(lib, t, rest);
      FieldLinesOrdered(lib, t, rest);
      if rest != [] {
        assert Rank(f0) < Rank(rest[0]) by { assert rest[0] == fs[1]; }
      } else {
        assert tail == [];
      }
      if Encoded(lib, t, f0) != "" {
        var line := Key(f0) + "=" + Encoded(lib, t, f0);
        FieldLineRank(f0, Encoded(lib, t, f0));
        ConsAscend(line, tail);
      }
    }
  }

  /** Every field of `fs` whose written value is non-empty has its line. */
  lemma {:induction false} FieldLinesComplete(lib: UrlLib, t: Track, fs: seq<Field>)
    ensures forall f :: f in fs && Encoded(lib, t, f) != "" ==>
      Key(f) + "=" + Encoded(lib, t, f) in FieldLines(lib, t, fs)
    decreases |fs|
  {
    if fs != [] {
      FieldLinesCons(lib, t, fs);
      FieldLinesComplete(lib, t, fs[1..]);
      forall f | f in fs && Encoded(lib, t, f) != ""
        ensures Key(f) + "=" + Encoded(lib, t, f) in FieldLines(lib, t, fs)
      {
        if f != fs[0] {
          var j :| 0 <= j < |fs| && fs[j] == f;
          assert fs[1..][j - 1] == f;
        }
      }
    }
  }

  /** The text SaveTo writes for a key it writes. */
  function WrittenValue(lib: UrlLib, t: Track, k: string): string
    requires t.uri.Some?
  {
    if k == "uri" then lib.urlString(t.uri.value)
    else match KeyField(k)
      case Some(f) => Encoded(lib, t, f)
      case None => ""
  }

  /** `line` is `k=v` for a key k that SaveTo writes, with v the non-empty
      text it writes for k. */
  predicate WrittenLine(lib: UrlLib, t: Track, line: string)
    requires t.uri.Some?
  {
    LineRank(line) >= 0
    && ValueOf(line) == WrittenValue(lib, t, KeyOf(line))
    && ValueOf(line) != ""
  }

  /** SaveTo writes a track's `uri` line, unless the URL prints as "", then
      its field lines. */
  lemma TrackLinesCons(lib: UrlLib, t: Track)
    requires t.uri.Some?
    ensures var u := lib.urlString(t.uri.value);
      TrackLines(lib, t) == (if u == "" then [] else ["uri=" + u]) + FieldLines(lib, t, FieldOrder)
  {
    var u := lib.urlString(t.uri.value);
    var pairs := TrackPairs(lib, t);
    assert pairs[2..] == FieldPairs(lib, t, FieldOrder);
    assert pairs[0] == "uri" && pairs[1] == u;
    assert "uri" + "=" + u == "uri=" + u;
  }

  /** Every field line of a track is a line SaveTo writes for it. */
  lemma FieldLinesWritten(lib: UrlLib, t: Track)
    requires t.uri.Some?
    ensures forall line :: line in FieldLines(lib, t, FieldOrder) ==> WrittenLine(lib, t, line)
  {
    FieldLinesSound(lib, t, FieldOrder);
    forall line | line in FieldLines(lib, t, FieldOrder)
      ensures WrittenLine(lib, t, line)
    {
      assert SoundLine(lib, t, FieldOrder, line);
      KeyFieldOfKey(KeyField(KeyOf(line)).value);
    }
  }

  /** One track's lines: each is `k=v` for a written key k, with v the text
      SaveTo writes for k and never empty; the keys strictly follow the order
      uri, title, artist, album, album-artist, genre, year, track-number,
      length, bitrate, codec, quality; and every key whose text is non-empty
      has its line. */
  lemma TrackLinesShape(lib: UrlLib, t: Track)
    requires t.uri.Some?
    ensures forall line :: line in TrackLines(lib, t) ==> WrittenLine(lib, t, line)
    ensures KeysAscend(TrackLines(lib, t))
    ensures lib.urlString(t.uri.value) != "" ==> "uri=" + lib.urlString(t.uri.value) in TrackLines(lib, t)
    ensures forall f :: Encoded(lib, t, f) != "" ==> Key(f) + "=" + Encoded(lib, t, f) in TrackLines(lib, t)
  {
    var u := lib.urlString(t.uri.value);
    var tail := FieldLines(lib, t, FieldOrder);
    TrackLinesCons(lib, t);
    FieldOrderIncreasing();
    FieldLinesOrdered(lib, t, FieldOrder);
    FieldLinesComplete(lib, t, FieldOrder);
    FieldLinesWritten(lib, t);
    if u != "" {
      var first := "uri=" + u;
      assert WrittenLine(lib, t, first) by {
        assert first == "uri" + "=" + u;
        SplitKVJoin("uri", u);
      }
      UriLineRank(u);
      ConsAscend(first, tail);
    }
  }

  /** With path-escaping keeping emptiness, a field has its line exactly when
      it is non-empty. */
  lemma WritesExactlyNonEmptyFields(lib: UrlLib, t: Track, f: Field)
    requires PathEscapeKeepsEmptiness(lib)
    requires t.uri.Some?
    ensures Key(f) + "=" + Encoded(lib, t, f) in TrackLines(lib, t) <==> Get(t, f) != ""
  {
    TrackLinesShape(lib, t);
    var lines := TrackLines(lib, t);
    if Key(f) + "=" + Encoded(lib, t, f) in lines {
      assert WrittenLine(lib, t, Key(f) + "=" + Encoded(lib, t, f));
      KeyFieldOfKey(f);
      SplitKVJoin(Key(f), Encoded(lib, t, f));
      assert Encoded(lib, t, f) != "";
      assert lib.pathEscape(Get(t, f)) == "" <==> Get(t, f) == "";
    }
  }

  /** Every line SaveTo writes after the header carries a key it writes, so
      `comment` (and any key the decoder ignores) never appears. */
  lemma {:induction false} TracksLinesKeys(lib: UrlLib, tracks: seq<Track>)
    requires AllHaveUri(tracks)
    ensures forall line :: line in TracksLines(lib, tracks) ==> LineRank(line) >= 0
    decreases |tracks|
  {
    if tracks != [] {
      TrackLinesShape(lib, tracks[0]);
      TracksLinesKeys(lib, tracks[1..]);
      assert forall line :: WrittenLine(lib, tracks[0], line) ==> LineRank(line) >= 0;
    }
  }

  /** SaveTo's first line is the query-escaped name under `title`; no later
      line has the key `comment`. */
  lemma SaveLinesShape(lib: UrlLib, p: Playlist)
    requires AllHaveUri(p.tracks)
    ensures KeyOf(SaveLines(lib, p)[0]) == "title"
    ensures ValueOf(SaveLines(lib, p)[0]) == lib.queryEscape(p.name)
    ensures forall line :: line in SaveLines(lib, p)[1..] ==> LineRank(line) >= 0 && KeyOf(line) != "comment"
  {
    var lines := SaveLines(lib, p);
    assert lines[0] == "title" + "=" + lib.queryEscape(p.name);
    SplitKVJoin("title", lib.queryEscape(p.name));
    TracksLinesKeys(lib, p.tracks);
    assert lines[1..] == TracksLines(lib, p.tracks);
    KeyFieldOfKey(Title);
    assert forall line :: LineRank(line) >= 0 ==> KeyOf(line) != "comment";
  }
}
