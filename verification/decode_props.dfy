/**
 * What Parse (audpl.go) computes, stated without its loop: every field of a
 * track is the value of the last line that set it anywhere before (the
 * accumulator is never reset), the URI comes from the last `uri` line, and a
 * track is appended at each `uri` line read while the accumulator held a URI.
 */
module DecodeProperties {
  import opened NetUrl
  import opened Audpl

  function KeyOf(line: string): string
  {
    SplitKV(line).0
  }

  function ValueOf(line: string): string
  {
    SplitKV(line).1
  }

  predicate IsUriLine(line: string)
  {
    KeyOf(line) == "uri"
  }

  /** The parse of the value of the last `uri` line; None when there is none. */
  function LastUri(lib: UrlLib, lines: seq<string>): Option<Url>
    decreases |lines|
  {
    if lines == [] then None
    else if IsUriLine(lines[|lines| - 1]) then lib.parse(ValueOf(lines[|lines| - 1]))
    else LastUri(lib, lines[..|lines| - 1])
  }

  /** The value of the last line whose key names field `f`; "" when there is none. */
  function LastValue(lines: seq<string>, f: Field): string
    decreases |lines|
  {
    if lines == [] then ""
    else if KeyField(KeyOf(lines[|lines| - 1])) == Some(f) then ValueOf(lines[|lines| - 1])
    else LastValue(lines[..|lines| - 1], f)
  }

  /** The track the accumulator holds after reading `lines`. */
  function Snapshot(lib: UrlLib, lines: seq<string>): Track
  {
    Track(LastUri(lib, lines),
          LastValue(lines, Title), LastValue(lines, Artist), LastValue(lines, Album),
          LastValue(lines, AlbumArtist), "", LastValue(lines, Genre), LastValue(lines, Year),
          LastValue(lines, TrackNumber), LastValue(lines, Length), LastValue(lines, Bitrate),
          LastValue(lines, Codec), LastValue(lines, Quality))
  }

  /** Each keyed field of the snapshot is the field's last value. */
  lemma SnapshotFields(lib: UrlLib, lines: seq<string>)
    ensures forall f :: Get(Snapshot(lib, lines), f) == LastValue(lines, f)
  {
    forall f
      ensures Get(Snapshot(lib, lines), f) == LastValue(lines, f)
    {
      match f
      case Title =>
      case Artist =>
      case Album =>
      case AlbumArtist =>
      case Genre =>
      case Year =>
      case TrackNumber =>
      case Length =>
      case Bitrate =>
      case Codec =>
      case Quality =>
    }
  }

  /** The tracks appended while reading `lines`: the snapshot taken just before
      each `uri` line that is read while a URI is held. */
  function Pushes(lib: UrlLib, lines: seq<string>): seq<Track>
    decreases |lines|
  {
    if lines == [] then []
    else
      var init := lines[..|lines| - 1];
      Pushes(lib, init)
      + (if IsUriLine(lines[|lines| - 1]) && LastUri(lib, init).Some? then [Snapshot(lib, init)] else [])
  }

  function UriCount(lines: seq<string>): nat
    decreases |lines|
  {
    if lines == [] then 0
    else UriCount(lines[..|lines| - 1]) + if IsUriLine(lines[|lines| - 1]) then 1 else 0
  }

  /** A `uri` line appends the accumulator only when it holds a URI, then
      replaces the URI alone, so every other field carries over. */
  lemma StepUri(lib: UrlLib, acc: Acc, v: string)
    ensures Step(lib, acc, "uri=" + v) ==
      Acc(if acc.current.uri.Some? then acc.tracks + [acc.current] else acc.tracks,
          acc.current.(uri := lib.parse(v)))
  {
    assert "uri=" + v == "uri" + "=" + v;
    SplitKVJoin("uri", v);
  }

  /** A field's line sets that field of the accumulator and nothing else. */
  lemma StepField(lib: UrlLib, acc: Acc, f: Field, v: string)
    ensures Step(lib, acc, Key(f) + "=" + v) == Acc(acc.tracks, SetField(acc.current, f, v))
  {
    KeyFieldOfKey(f);
    SplitKVJoin(Key(f), v);
  }

  /** The loop's state after any prefix of the body is the declarative one. */
  lemma {:induction false} RunFromStart(lib: UrlLib, lines: seq<string>)
    ensures Run(lib, Start, lines) == Acc(Pushes(lib, lines), Snapshot(lib, lines))
    decreases |lines|
  {
    if lines != [] {
      RunFromStart(lib, lines[..|lines| - 1]);
      StepSnapshot(lib, lines);
    }
  }

  /** One more line takes the declarative state of the lines before it to
      that of all the lines. */
  lemma StepSnapshot(lib: UrlLib, lines: seq<string>)
    requires lines != []
    ensures var init := lines[..|lines| - 1];
      Step(lib, Acc(Pushes(lib, init), Snapshot(lib, init)), lines[|lines| - 1])
      == Acc(Pushes(lib, lines), Snapshot(lib, lines))
  {
    var init, line := lines[..|lines| - 1], lines[|lines| - 1];
    var s := Snapshot(lib, init);
    var next := Step(lib, Acc(Pushes(lib, init), s), line);
    var want := Snapshot(lib, lines);
    assert next.tracks == Pushes(lib, lines);
    SnapshotFields(lib, init);
    SnapshotFields(lib, lines);
    if IsUriLine(line) {
      assert next.current == s.(uri := lib.parse(ValueOf(line)));
      assert KeyField(KeyOf(line)).None?;
      forall f
        ensures Get(next.current, f) == Get(want, f)
      {
        assert LastValue(lines, f) == LastValue(init, f);
      }
    } else {
      assert next.current == Assign(s, KeyOf(line), ValueOf(line));
      forall f
        ensures Get(next.current, f) == Get(want, f)
      {
        if KeyField(KeyOf(line)) == Some(f) {
          assert LastValue(lines, f) == ValueOf(line);
        } else {
          assert LastValue(lines, f) == LastValue(init, f);
        }
      }
    }
    assert next.current.uri == want.uri;
    TrackExt(next.current, want);
  }

  /** Parse fails exactly when the stream has no line, the first line's key is
      not `title`, its value is not valid path-escaping, or a read error ends
      the stream; it returns neither a playlist nor an error exactly on an
      empty stream without a read error. */
  lemma DecodeOutcome(lib: UrlLib, input: Scan)
    ensures Decode(lib, input).0.None? <==>
      input.lines == [] || KeyOf(input.lines[0]) != "title"
      || lib.pathUnescape(ValueOf(input.lines[0])).None? || input.readError
    ensures Decode(lib, input).0.Some? ==> Decode(lib, input).1.None?
    ensures Decode(lib, input).0.None? && Decode(lib, input).1.None? <==>
      input.lines == [] && !input.readError
    ensures input.lines != [] && KeyOf(input.lines[0]) != "title" ==>
      Decode(lib, input).1 == Some(UnexpectedHeaderKey(KeyOf(input.lines[0])))
  {
  }

  /** On success the name is the path-unescaped header value, and the tracks
      are the appended snapshots followed by the final accumulator. */
  lemma DecodeSuccess(lib: UrlLib, input: Scan)
    requires Decode(lib, input).0.Some?
    ensures var p := Decode(lib, input).0.value;
      var body := input.lines[1..];
      p.name == lib.pathUnescape(ValueOf(input.lines[0])).value
      && p.tracks == Pushes(lib, body) + [Snapshot(lib, body)]
  {
    RunFromStart(lib, input.lines[1..]);
  }

  lemma {:induction false} PushedTracksHoldUri(lib: UrlLib, lines: seq<string>)
    ensures forall j :: 0 <= j < |Pushes(lib, lines)| ==>
      Pushes(lib, lines)[j].uri.Some? && Pushes(lib, lines)[j].comment == ""
    decreases |lines|
  {
    if lines != [] {
      PushedTracksHoldUri(lib, lines[..|lines| - 1]);
    }
  }

  /** Every decoded track but the last holds a URI, and no decoded track has
      a comment, since no key sets it. */
  lemma DecodedTracks(lib: UrlLib, input: Scan)
    requires Decode(lib, input).0.Some?
    ensures var ts := Decode(lib, input).0.value.tracks;
      |ts| >= 1
      && (forall j :: 0 <= j < |ts| - 1 ==> ts[j].uri.Some?)
      && (forall j :: 0 <= j < |ts| ==> ts[j].comment == "")
  {
    DecodeSuccess(lib, input);
    PushedTracksHoldUri(lib, input.lines[1..]);
  }

  lemma {:induction false} NoUriLineNoPush(lib: UrlLib, lines: seq<string>)
    requires forall i :: 0 <= i < |lines| ==> !IsUriLine(lines[i])
    ensures Pushes(lib, lines) == [] && LastUri(lib, lines) == None
    decreases |lines|
  {
    if lines != [] {
      NoUriLineNoPush(lib, lines[..|lines| - 1]);
    }
  }

  /** A body without `uri` lines decodes to exactly one track, with no URI and
      every field the last value given for it. */
  lemma DecodeWithoutUri(lib: UrlLib, input: Scan)
    requires Decode(lib, input).0.Some?
    requires forall i :: 1 <= i < |input.lines| ==> !IsUriLine(input.lines[i])
    ensures var ts := Decode(lib, input).0.value.tracks;
      |ts| == 1 && ts[0].uri.None?
      && forall f :: Get(ts[0], f) == LastValue(input.lines[1..], f)
  {
    var body := input.lines[1..];
    assert Decode(lib, input).0.value.tracks == Pushes(lib, body) + [Snapshot(lib, body)] by {
      DecodeSuccess(lib, input);
    }
    assert Pushes(lib, body) == [] by {
      assert forall i :: 0 <= i < |body| ==> body[i] == input.lines[i + 1];
      NoUriLineNoPush(lib, body);
    }
    var s := Snapshot(lib, body);
    assert s.uri.None? by {
      assert forall i :: 0 <= i < |body| ==> body[i] == input.lines[i + 1];
      NoUriLineNoPush(lib, body);
    }
    SnapshotFields(lib, body);
  }

  predicate UrisParse(lib: UrlLib, lines: seq<string>)
  {
    forall i :: 0 <= i < |lines| && IsUriLine(lines[i]) ==> lib.parse(ValueOf(lines[i])).Some?
  }

  lemma {:induction false} PushCount(lib: UrlLib, lines: seq<string>)
    requires UrisParse(lib, lines)
    ensures LastUri(lib, lines).Some? <==> UriCount(lines) > 0
    ensures |Pushes(lib, lines)| == if UriCount(lines) == 0 then 0 else UriCount(lines) - 1
    decreases |lines|
  {
    if lines != [] {
      var init := lines[..|lines| - 1];
      assert forall i :: 0 <= i < |init| ==> init[i] == lines[i];
      PushCount(lib, init);
    }
  }

  /** When every `uri` value parses, there is one track per `uri` line, and
      one track when there is none. */
  lemma DecodeTrackCount(lib: UrlLib, input: Scan)
    requires Decode(lib, input).0.Some?
    requires UrisParse(lib, input.lines[1..])
    ensures var n := UriCount(input.lines[1..]);
      |Decode(lib, input).0.value.tracks| == if n == 0 then 1 else n
  {
    DecodeSuccess(lib, input);
    PushCount(lib, input.lines[1..]);
  }

  /** Tracks are only appended: the tracks after a prefix of the lines are a
      prefix of the tracks after all of them. */
  lemma {:induction false} RunOnlyAppends(lib: UrlLib, acc: Acc, lines: seq<string>, i: nat)
    requires i <= |lines|
    ensures var before := Run(lib, acc, lines[..i]).tracks;
      var after := Run(lib, acc, lines).tracks;
      |before| <= |after| && after[..|before|] == before
    decreases |lines|
  {
    if i < |lines| {
      var init := lines[..|lines| - 1];
      assert lines[..i] == init[..i];
      RunOnlyAppends(lib, acc, init, i);
    } else {
      assert lines[..i] == lines;
    }
  }

  /** A stream holding only the header decodes to one track without a URI,
      a playlist that SaveTo's `track.URI.String()` cannot write. */
  lemma HeaderOnlyIsNotSavable(lib: UrlLib, header: string)
    requires KeyOf(header) == "title" && lib.pathUnescape(ValueOf(header)).Some?
    ensures Decode(lib, Scan([header], false)).0 ==
      Some(Playlist(lib.pathUnescape(ValueOf(header)).value, [EmptyTrack]))
    ensures !AllHaveUri(Decode(lib, Scan([header], false)).0.value.tracks)
  {
    var input := Scan([header], false);
    assert input.lines[1..] == [];
    assert Run(lib, Start, input.lines[1..]) == Start;
    var r := Decode(lib, input);
    assert SplitKV(input.lines[0]) == (KeyOf(header), ValueOf(header));
    assert input.lines != [] && !input.readError;
    assert r.1.None?;
    assert r.0.Some?;
    assert r.0.value.tracks == Start.tracks + [Start.current];
    assert Start.tracks + [Start.current] == [EmptyTrack];
    assert r.0.value.name == lib.pathUnescape(ValueOf(header)).value;
    assert r.0 == Some(Playlist(lib.pathUnescape(ValueOf(header)).value, [EmptyTrack]));
    assert !r.0.value.tracks[0].uri.Some?;
  }

  /** splitKV on the test's inputs: the value is not percent-decoded. */
  lemma SplitKVKeepsEscapes()
    ensures SplitKV("title=WHO%27S%20GONNA%20SAVE%20US") == ("title", "WHO%27S%20GONNA%20SAVE%20US")
  {
    HeaderOfTest();
    SplitKVJoin("title", "WHO%27S%20GONNA%20SAVE%20US");
  }

  /** The test's header line is `title`, `=`, then the escaped name. */
  lemma HeaderOfTest()
    ensures "title=WHO%27S%20GONNA%20SAVE%20US" == "title" + "=" + "WHO%27S%20GONNA%20SAVE%20US"
  {
  }

  /** splitKV on the test's input without '=': all key, empty value. */
  lemma SplitKVWithoutEq()
    ensures SplitKV("invalid input") == ("invalid input", "")
  {
    assert '=' !in "invalid input";
  }

}
