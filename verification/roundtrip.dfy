/**
 * What Parse returns for the lines SaveTo wrote. Track values come back as
 * written (path-escaped, never decoded), URIs come back when printing and
 * re-parsing them is faithful, and because Parse never resets its
 * accumulator, a field that a track leaves empty comes back holding the
 * value of the nearest earlier track that had one.
 */
module SaveThenParse {
  import opened NetUrl
  import opened Audpl
  import opened DecodeProperties
  import opened EncodeProperties

  /** Running the loop over `a + b` is running it over `a`, then over `b`. */
  lemma {:induction false} RunAppend(lib: UrlLib, acc: Acc, a: seq<string>, b: seq<string>)
    ensures Run(lib, acc, a + b) == Run(lib, Run(lib, acc, a), b)
    decreases |b|
  {
    if b == [] {
      assert a + b == a;
    } else {
      var ab, init, last := a + b, b[..|b| - 1], b[|b| - 1];
      assert ab[..|ab| - 1] == a + init;
      assert ab[|ab| - 1] == last;
      calc {
        Run(lib, acc, ab);
        Step(lib, Run(lib, acc, a + init), last);
        { RunAppend(lib, acc, a, init); }
        Step(lib, Run(lib, Run(lib, acc, a), init), last);
        Run(lib, Run(lib, acc, a), b);
      }
    }
  }

  lemma RunOne(lib: UrlLib, acc: Acc, line: string)
    ensures Run(lib, acc, [line]) == Step(lib, acc, line)
  {
    assert [line][..0] == [];
  }

  /** The accumulator after the field lines of `t` for `fs`, front to back:
      each field with non-empty written text is set to that text. */
  function ApplyFields(lib: UrlLib, c: Track, t: Track, fs: seq<Field>): Track
    decreases |fs|
  {
    if fs == [] then c
    else
      var v := Encoded(lib, t, fs[0]);
      ApplyFields(lib, if v == "" then c else SetField(c, fs[0], v), t, fs[1..])
  }

  lemma {:induction false} FieldLinesRun(lib: UrlLib, acc: Acc, t: Track, fs: seq<Field>)
    ensures Run(lib, acc, FieldLines(lib, t, fs)) == Acc(acc.tracks, ApplyFields(lib, acc.current, t, fs))
    decreases |fs|
  {
    if fs == [] {
      assert FieldLines(lib, t, fs) == [];
    } else {
      var f0, rest := fs[0], fs[1..];
      var v := Encoded(lib, t, f0);
      FieldLinesCons(lib, t, fs);
      if v == "" {
        assert FieldLines(lib, t, fs) == FieldLines(lib, t, rest);
        assert ApplyFields(lib, acc.current, t, fs) == ApplyFields(lib, acc.current, t, rest);
        FieldLinesRun(lib, acc, t, rest);
      } else {
        var line := Key(f0) + "=" + v;
        var acc' := Acc(acc.tracks, SetField(acc.current, f0, v));
        calc {
          Run(lib, acc, FieldLines(lib, t, fs));
          Run(lib, acc, [line] + FieldLines(lib, t, rest));
          { RunAppend(lib, acc, [line], FieldLines(lib, t, rest)); }
          Run(lib, Run(lib, acc, [line]), FieldLines(lib, t, rest));
          { RunOne(lib, acc, line); StepField(lib, acc, f0, v); }
          Run(lib, acc', FieldLines(lib, t, rest));
          { FieldLinesRun(lib, acc', t, rest); }
          Acc(acc.tracks, ApplyFields(lib, acc'.current, t, rest));
          Acc(acc.tracks, ApplyFields(lib, acc.current, t, fs));
        }
      }
    }
  }

  /** For fields in FieldOrder's order, the fold sets each listed field with
      non-empty written text to that text and leaves everything else. */
  lemma {:induction false} GetApplyFields(lib: UrlLib, c: Track, t: Track, fs: seq<Field>)
    requires Increasing(fs)
    ensures ApplyFields(lib, c, t, fs).uri == c.uri
    ensures ApplyFields(lib, c, t, fs).comment == c.comment
    ensures forall g ::
              Get(ApplyFields(lib, c, t, fs), g) ==
              (if g in fs && Encoded(lib, t, g) != "" then Encoded(lib, t, g) else Get(c, g))
    decreases |fs|
  {
    if fs != [] {
      var f0, rest := fs[0], fs[1..];
      var v := Encoded(lib, t, f0);
      var c' := if v == "" then c else SetField(c, f0, v);
      assert Increasing(rest) by {
        assert forall i :: 0 <= i < |rest| ==> rest[i] == fs[i + 1];
      }
      assert f0 !in rest by {
        forall j | 0 <= j < |rest| ensures rest[j] != f0 {
          assert rest[j] == fs[j + 1];
        }
      }
      GetApplyFields(lib, c', t, rest);
      forall g
        ensures Get(ApplyFields(lib, c, t, fs), g) ==
          if g in fs && Encoded(lib, t, g) != "" then Encoded(lib, t, g) else Get(c, g)
      {
        assert g in fs <==> g == f0 || g in rest;
      }
    }
  }

  /** The text written for `f` in `t` when non-empty, otherwise `c`'s field. */
  function Pick(lib: UrlLib, c: Track, t: Track, f: Field): string
  {
    if Encoded(lib, t, f) != "" then Encoded(lib, t, f) else Get(c, f)
  }

  /** The accumulator after one track's lines when it held `c` before them:
      the track's URI; each field the text written for it when that is
      non-empty, otherwise what `c` held; and `c`'s comment. */
  function Overlay(lib: UrlLib, c: Track, t: Track): (r: Track)
    requires t.uri.Some?
    ensures r.uri == t.uri && r.comment == c.comment
    ensures forall f :: Get(r, f) == Pick(lib, c, t, f)
  {
    Track(t.uri, Pick(lib, c, t, Title), Pick(lib, c, t, Artist), Pick(lib, c, t, Album),
          Pick(lib, c, t, AlbumArtist), c.comment, Pick(lib, c, t, Genre), Pick(lib, c, t, Year),
          Pick(lib, c, t, TrackNumber), Pick(lib, c, t, Length), Pick(lib, c, t, Bitrate),
          Pick(lib, c, t, Codec), Pick(lib, c, t, Quality))
  }

  lemma SetUriKeepsFields(c: Track, u: Option<Url>)
    ensures forall g :: Get(c.(uri := u), g) == Get(c, g)
  {
  }

  /** Applying every field of `t`, in FieldOrder's order, over `c` once its
      URI is `t`'s gives the overlay of `t` on `c`. */
  lemma ApplyAllFields(lib: UrlLib, c: Track, t: Track, fs: seq<Field>)
    requires t.uri.Some?
    requires Increasing(fs) && forall f :: f in fs
    ensures ApplyFields(lib, c.(uri := t.uri), t, fs) == Overlay(lib, c, t)
  {
    var c1 := c.(uri := t.uri);
    var a, o := ApplyFields(lib, c1, t, fs), Overlay(lib, c, t);
    GetApplyFields(lib, c1, t, fs);
    SetUriKeepsFields(c, t.uri);
    assert forall g :: Get(a, g) == Pick(lib, c, t, g);
    TrackExt(a, o);
  }

  /** The tracks appended so far, plus the accumulator when it holds a URI:
      what a `uri` line leaves in the appended list. */
  function Flushed(acc: Acc): seq<Track>
  {
    if acc.current.uri.Some? then acc.tracks + [acc.current] else acc.tracks
  }

  /** One track's lines: the `uri` line appends the accumulator when it holds
      a URI, and the accumulator becomes the overlay of the track on it. */
  lemma TrackRun(lib: UrlLib, acc: Acc, t: Track)
    requires t.uri.Some? && PrintsAndReparses(lib, t.uri.value)
    ensures Run(lib, acc, TrackLines(lib, t)) == Acc(Flushed(acc), Overlay(lib, acc.current, t))
  {
    var u := lib.urlString(t.uri.value);
    var first := "uri=" + u;
    var tail := FieldLines(lib, t, FieldOrder);
    TrackLinesCons(lib, t);
    RunAppend(lib, acc, [first], tail);
    RunOne(lib, acc, first);
    StepUri(lib, acc, u);
    var acc1 := Acc(Flushed(acc), acc.current.(uri := t.uri));
    assert Run(lib, acc, [first]) == acc1;
    FieldLinesRun(lib, acc1, t, FieldOrder);
    FieldOrderIncreasing();
    ApplyAllFields(lib, acc.current, t, FieldOrder);
  }

  /** Setting every field of `t` with non-empty written text over `c` keeps
      `c`'s URI and gives each field its pick. */
  lemma PickAllFields(lib: UrlLib, c: Track, t: Track, fs: seq<Field>)
    requires Increasing(fs) && forall f :: f in fs
    ensures ApplyFields(lib, c, t, fs).uri == c.uri
    ensures forall f :: Get(ApplyFields(lib, c, t, fs), f) == Pick(lib, c, t, f)
  {
    GetApplyFields(lib, c, t, fs);
  }

  /** A track whose URL prints as "" gets no `uri` line, so reading its lines
      back appends nothing, and its fields land on the held accumulator,
      which keeps its own URI. */
  lemma TrackRunEmptyUri(lib: UrlLib, acc: Acc, t: Track)
    requires t.uri.Some? && lib.urlString(t.uri.value) == ""
    ensures var r := Run(lib, acc, TrackLines(lib, t));
      r.tracks == acc.tracks && r.current.uri == acc.current.uri
      && forall f :: Get(r.current, f) == Pick(lib, acc.current, t, f)
  {
    var tail := FieldLines(lib, t, FieldOrder);
    assert TrackLines(lib, t) == tail by {
      TrackLinesCons(lib, t);
    }
    FieldLinesRun(lib, acc, t, FieldOrder);
    FieldOrderIncreasing();
    PickAllFields(lib, acc.current, t, FieldOrder);
  }

  /** Saving two tracks where the second one's URL prints as "" and parsing
      the result gives back one track: the second merges into the first. */
  lemma EmptyUriMerges(lib: UrlLib, p: Playlist)
    requires |p.tracks| == 2 && AllHaveUri(p.tracks)
    requires PrintsAndReparses(lib, p.tracks[0].uri.value)
    requires lib.urlString(p.tracks[1].uri.value) == ""
    requires lib.pathUnescape(lib.queryEscape(p.name)).Some?
    ensures var d := Decode(lib, Scan(SaveLines(lib, p), false));
      d.0.Some? && |d.0.value.tracks| == 1 && d.0.value.tracks[0].uri == p.tracks[0].uri
  {
    var a, b := p.tracks[0], p.tracks[1];
    var lines := SaveLines(lib, p);
    var q := lib.queryEscape(p.name);
    assert lines[0] == "title" + "=" + q;
    SplitKVJoin("title", q);
    assert lines[1..] == TrackLines(lib, a) + TrackLines(lib, b) by {
      var rest := p.tracks[1..];
      assert rest[0] == b && rest[1..] == [];
      assert TracksLines(lib, rest) == TrackLines(lib, b) + TracksLines(lib, rest[1..]);
      assert TracksLines(lib, p.tracks) == TrackLines(lib, a) + TracksLines(lib, rest);
    }
    RunAppend(lib, Start, TrackLines(lib, a), TrackLines(lib, b));
    var acc1 := Acc(Flushed(Start), Overlay(lib, Start.current, a));
    TrackRun(lib, Start, a);
    TrackRunEmptyUri(lib, acc1, b);
  }

  /** Every track holds a URI that prints and re-parses faithfully. */
  ghost predicate Printable(lib: UrlLib, ts: seq<Track>)
  {
    forall i :: 0 <= i < |ts| ==> ts[i].uri.Some? && PrintsAndReparses(lib, ts[i].uri.value)
  }

  /** The tracks Parse rebuilds from the saved tracks `ts` when the
      accumulator held `held` before them: each is the overlay of the saved
      track on the one rebuilt before it. */
  function Carried(lib: UrlLib, held: Track, ts: seq<Track>): (r: seq<Track>)
    requires AllHaveUri(ts)
    ensures |r| == |ts|
    decreases |ts|
  {
    if ts == [] then []
    else
      var first := Overlay(lib, held, ts[0]);
      [first] + Carried(lib, first, ts[1..])
  }

  /** The first track's lines, then the others'. */
  lemma TracksRunCons(lib: UrlLib, acc: Acc, ts: seq<Track>)
    requires AllHaveUri(ts) && ts != [] && PrintsAndReparses(lib, ts[0].uri.value)
    ensures AllHaveUri(ts[1..])
    ensures Run(lib, acc, TracksLines(lib, ts)) ==
      Run(lib, Acc(Flushed(acc), Overlay(lib, acc.current, ts[0])), TracksLines(lib, ts[1..]))
  {
    assert forall i :: 0 <= i < |ts[1..]| ==> ts[1..][i] == ts[i + 1];
    assert TracksLines(lib, ts) == TrackLines(lib, ts[0]) + TracksLines(lib, ts[1..]);
    RunAppend(lib, acc, TrackLines(lib, ts[0]), TracksLines(lib, ts[1..]));
    TrackRun(lib, acc, ts[0]);
  }

  lemma AppendOneAssoc<T>(x: seq<T>, y: T, z: seq<T>)
    ensures (x + [y]) + z == x + ([y] + z)
  {
  }

  lemma {:induction false} TracksRun(lib: UrlLib, acc: Acc, ts: seq<Track>)
    requires AllHaveUri(ts) && Printable(lib, ts)
    requires ts != []
    ensures var r := Run(lib, acc, TracksLines(lib, ts));
      r.tracks + [r.current] == Flushed(acc) + Carried(lib, acc.current, ts)
    decreases |ts|
  {
    var t, rest := ts[0], ts[1..];
    assert AllHaveUri(rest) && Printable(lib, rest) by {
      assert forall i :: 0 <= i < |rest| ==> rest[i] == ts[i + 1];
    }
    var first := Overlay(lib, acc.current, t);
    var acc1 := Acc(Flushed(acc), first);
    var r := Run(lib, acc, TracksLines(lib, ts));
    assert r == Run(lib, acc1, TracksLines(lib, rest)) by {
      TracksRunCons(lib, acc, ts);
    }
    var c := Carried(lib, first, rest);
    assert Carried(lib, acc.current, ts) == [first] + c;
    if rest == [] {
      assert r == acc1 by {
        assert TracksLines(lib, rest) == [];
      }
      assert c == [];
      assert [first] + c == [first];
    } else {
      assert r.tracks + [r.current] == Flushed(acc1) + c by {
        TracksRun(lib, acc1, rest);
      }
      assert Flushed(acc1) == Flushed(acc) + [first];
      AppendOneAssoc(Flushed(acc), first, c);
    }
  }

  /** Parse applied to SaveTo's lines: the name comes back as
      PathUnescape(QueryEscape(name)), an error when that fails; a playlist
      without tracks comes back with one empty track, any other with its
      tracks rebuilt by Carried from an empty accumulator. */
  lemma SaveThenParseExact(lib: UrlLib, p: Playlist)
    requires AllHaveUri(p.tracks) && Printable(lib, p.tracks)
    ensures Decode(lib, Scan(SaveLines(lib, p), false)) ==
      match lib.pathUnescape(lib.queryEscape(p.name))
      case None => (None, Some(InvalidName(lib.queryEscape(p.name))))
      case Some(n) =>
        (Some(Playlist(n, if p.tracks == [] then [EmptyTrack] else Carried(lib, EmptyTrack, p.tracks))), None)
  {
    var lines := SaveLines(lib, p);
    var q := lib.queryEscape(p.name);
    assert lines[0] == "title" + "=" + q;
    SplitKVJoin("title", q);
    assert lines[1..] == TracksLines(lib, p.tracks);
    var acc := Run(lib, Start, lines[1..]);
    var ts := if p.tracks == [] then [EmptyTrack] else Carried(lib, EmptyTrack, p.tracks);
    if p.tracks == [] {
      assert lines[1..] == [];
      assert acc == Start;
    } else {
      TracksRun(lib, Start, p.tracks);
    }
    assert acc.tracks + [acc.current] == ts;
  }

  lemma CarriedHead(lib: UrlLib, held: Track, ts: seq<Track>)
    requires AllHaveUri(ts) && ts != []
    ensures Carried(lib, held, ts)[0] == Overlay(lib, held, ts[0])
  {
  }

  /** Position i of the rebuild from `held` is position i - 1 of the rebuild
      of the later tracks from the first rebuilt one, and so is the position
      before it, the first rebuilt track standing at position -1. */
  lemma CarriedShift(lib: UrlLib, held: Track, ts: seq<Track>, i: nat)
    requires AllHaveUri(ts) && 0 < i < |ts|
    ensures AllHaveUri(ts[1..]) && ts[1..][i - 1] == ts[i]
    ensures var first := Overlay(lib, held, ts[0]);
      var r, r' := Carried(lib, held, ts), Carried(lib, first, ts[1..]);
      r[i] == r'[i - 1]
      && r[i - 1] == (if i == 1 then first else r'[i - 2])
      && first.comment == held.comment
  {
    assert forall j :: 0 <= j < |ts[1..]| ==> ts[1..][j] == ts[j + 1];
    var first := Overlay(lib, held, ts[0]);
    var r' := Carried(lib, first, ts[1..]);
    assert Carried(lib, held, ts) == [first] + r';
    ConsIndex(first, r', i);
  }

  lemma ConsIndex<T>(x: T, s: seq<T>, i: nat)
    requires 0 < i <= |s|
    ensures ([x] + s)[i] == s[i - 1]
    ensures ([x] + s)[i - 1] == if i == 1 then x else s[i - 2]
  {
  }

  /** The rebuilt tracks, one by one: each is the overlay of the saved track
      on the track rebuilt just before it (on `held` for the first), so it has
      the saved track's URI and, per field, the text written for it when that
      is non-empty and otherwise the previous rebuilt track's field; every one
      keeps the held comment. */
  lemma {:induction false} CarriedAt(lib: UrlLib, held: Track, ts: seq<Track>, i: nat)
    requires AllHaveUri(ts) && i < |ts|
    ensures Carried(lib, held, ts)[i] ==
      Overlay(lib, if i == 0 then held else Carried(lib, held, ts)[i - 1], ts[i])
    ensures Carried(lib, held, ts)[i].comment == held.comment
    decreases i
  {
    if i == 0 {
      CarriedHead(lib, held, ts);
    } else {
      CarriedShift(lib, held, ts, i);
      CarriedAt(lib, Overlay(lib, held, ts[0]), ts[1..], i - 1);
    }
  }

  /** Every field of `t` is non-empty, each of the five fields SaveTo
      path-escapes is left alone by path-escaping, and `t` has no comment. */
  predicate Plain(lib: UrlLib, t: Track)
  {
    t.comment == ""
    && forall f :: Get(t, f) != "" && (PathEscaped(f) ==> lib.pathEscape(Get(t, f)) == Get(t, f))
  }

  /** A plain track's lines rebuild exactly that track over any accumulator
      without a comment. */
  lemma OverlayPlain(lib: UrlLib, c: Track, t: Track)
    requires t.uri.Some? && Plain(lib, t) && c.comment == ""
    ensures Overlay(lib, c, t) == t
  {
    var o := Overlay(lib, c, t);
    forall f
      ensures Get(o, f) == Get(t, f)
    {
      EncodedText(lib, t, f);
    }
    TrackExt(o, t);
  }

  /** Round trip under the conditions where it holds: when the name survives
      QueryEscape then PathUnescape, and every track holds a faithfully
      printed URI and is plain, Parse gives back exactly the playlist SaveTo
      wrote. */
  lemma RoundTripWhenNothingToEscape(lib: UrlLib, p: Playlist)
    requires lib.pathUnescape(lib.queryEscape(p.name)) == Some(p.name)
    requires p.tracks != []
    requires AllHaveUri(p.tracks) && Printable(lib, p.tracks)
    requires forall i :: 0 <= i < |p.tracks| ==> Plain(lib, p.tracks[i])
    ensures Decode(lib, Scan(SaveLines(lib, p), false)) == (Some(p), None)
  {
    SaveThenParseExact(lib, p);
    var ts := Carried(lib, EmptyTrack, p.tracks);
    forall i | 0 <= i < |ts|
      ensures ts[i] == p.tracks[i]
    {
      CarriedAt(lib, EmptyTrack, p.tracks, i);
      var prev := if i == 0 then EmptyTrack else ts[i - 1];
      if i > 0 {
        CarriedAt(lib, EmptyTrack, p.tracks, i - 1);
      }
      OverlayPlain(lib, prev, p.tracks[i]);
    }
    assert ts == p.tracks;
  }

  /** With path-escaping mapping only "" to "", a field a saved track leaves
      empty comes back holding the same field of the track rebuilt before
      it, and a field it fills comes back as its path-escaped or raw text. */
  lemma FieldsCarryOver(lib: UrlLib, held: Track, ts: seq<Track>, i: nat, f: Field)
    requires PathEscapeKeepsEmptiness(lib)
    requires AllHaveUri(ts) && 0 < i < |ts|
    ensures Get(ts[i], f) == "" ==> Get(Carried(lib, held, ts)[i], f) == Get(Carried(lib, held, ts)[i - 1], f)
    ensures Get(ts[i], f) != "" ==> Get(Carried(lib, held, ts)[i], f) == Encoded(lib, ts[i], f)
  {
    CarriedAt(lib, held, ts, i);
    assert lib.pathEscape(Get(ts[i], f)) == "" <==> Get(ts[i], f) == "";
  }
}
