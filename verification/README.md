# audpl playlist codec, modelled in Dafny

This project models the line codec of `audpl.go` (diamondburned/audpl), a
text playlist format. A file has a `title=<name>` header line and then a
flat run of `key=value` lines, where a `uri` line starts each new track.

- `Parse` reads the lines into a `Playlist`.
- `SaveTo` writes a `Playlist` back through `writePair`, which skips pairs with an empty value.
- `splitKV` splits a line at its first `=`.

The model follows the Go code. Several of its behaviours are easy to miss,
and each is proved as a property:

- Track values are never percent-decoded. `splitKV` only splits, so a
  value comes back exactly as it was written: the five path-escaped fields
  stay escaped (`SplitKVKeepsEscapes`, `SaveThenParse.CarriedAt`). The
  expectations in `audpl_test.go:76-105` describe a decoding `splitKV`,
  which the code does not have.
- A header value that `url.PathUnescape` rejects is an error, not a raw
  fallback (`DecodeOutcome`).
- The track accumulator is never reset at a `uri` line. Every field that
  a track does not set keeps the previous track's value
  (`RunFromStart`, `SaveThenParse.FieldsCarryOver`). As a result,
  save-then-parse is not the identity in general. It holds only under the
  conditions of `SaveThenParse.RoundTripWhenNothingToEscape`.
- The final accumulator is always appended. A body without `uri` lines
  gives one track with no URI (`DecodeWithoutUri`). A file holding only
  the header gives a playlist that `SaveTo` cannot write
  (`HeaderOnlyIsNotSavable`).
- The name is written with `url.QueryEscape` but read with
  `url.PathUnescape` (`SaveThenParseExact`).
- On an empty stream without a read error, `errors.Wrap` of a nil error
  is nil. `Parse` then returns neither a playlist nor an error
  (`DecodeOutcome`).

Modules:

- `NetUrl` (net_url.dfy): the five net/url entry points the codec calls,
  as a value `UrlLib` of total functions, and the opaque URL type.
- `Audpl` (audpl.dfy): the data model, `SplitKV`, the `Parse` method with
  its loop, and the `WritePair` and `SaveTo` methods. Each method is
  proved against a specification function: `Decode`, `PairLines` and
  `SaveLines`.
- `DecodeProperties` (decode_props.dfy): what `Parse` computes, stated
  without its loop.
- `EncodeProperties` (encode_props.dfy): the shape of what `SaveTo`
  writes.
- `SaveThenParse` (roundtrip.dfy): what `Parse` returns for `SaveTo`'s
  output.

## Model

| member | source | states |
|---|---|---|
| Audpl.KeyField | audpl.go:82-104 | the switch maps a key to the field whose key it is; `uri` and `comment` set no field |
| Audpl.KeyFieldOfKey | audpl.go:82-104 | each of the eleven keys selects its own field, has no `=`, and is neither `uri` nor `comment` |
| Audpl.FirstEq | audpl.go:118 | the split point is the first `=`, or the end of the text when there is none |
| Audpl.SplitKV | audpl.go:117-124 | the key has no `=`; key, `=` and value rejoin to the text when it has a `=`; a text without `=` is all key with an empty value |
| Audpl.SplitKVJoin | audpl.go:117-124 | splitting `k=v` gives back `(k, v)` for every key without `=`, whatever `=` the value contains |
| Audpl.SetField | audpl.go:82-104 | a field assignment changes that field only, never the URI or the comment |
| Audpl.Assign | audpl.go:71-104 | a non-`uri` line sets exactly the field its key names, to its value; an unrecognised key (`comment` among them) changes nothing; the URI and the comment are never touched |
| Audpl.Step | audpl.go:70-104 | one line appends either nothing or the accumulator as it was, and the latter only when it held a URI; only a `uri` line changes the URI; the comment never changes |
| Audpl.Run | audpl.go:70-105 | after any lines, the track count grew by at most one per line and never shrank, and the comment is still the starting one |
| Audpl.Parse | audpl.go:46-115 | the loop computes `Decode`: header checks, then the left fold of `Step` over the body, then the final append; on success there is no error and at least one track |
| Audpl.FieldPairs | audpl.go:133-146 | one key and one value for each field written |
| Audpl.FieldPairsAt | audpl.go:135-145 | the arguments for the `j`-th listed field are its key followed by the text written for it |
| Audpl.EncodedText | audpl.go:135-145 | year, track-number, length, bitrate, codec and quality are written raw; a text path-escaping leaves alone is written as it is; when path-escaping maps only "" to "", a field is written empty iff it is empty |
| Audpl.TrackPairs | audpl.go:133-146 | a track's `writePair` arguments are 24 strings: `uri` with the printed URL, then, for each field in the fixed order, its key and the text written for it |
| Audpl.WritePair | audpl.go:166-180 | the loop emits `PairLines`: `k=v` for each pair whose value is non-empty, in order |
| Audpl.SaveTo | audpl.go:126-154 | the output is the query-escaped header line, then each track's `writePair` lines in track order; every track must hold a URI |
| DecodeProperties.StepUri | audpl.go:72-81 | a `uri` line appends the accumulator only if it holds a URI, then replaces only the URI with `url.Parse`'s result |
| DecodeProperties.StepField | audpl.go:82-104 | a recognised key's line sets exactly that field and appends nothing |
| DecodeProperties.StepSnapshot | audpl.go:70-104 | one more line takes the step-free description of the lines before it to that of all the lines |
| DecodeProperties.RunFromStart | audpl.go:68-105 | after any lines, the appended tracks are the snapshots taken at each `uri` line read while a URI was held; the accumulator holds the last URI and, per field, the last value given anywhere before; its comment stays empty |
| DecodeProperties.DecodeOutcome | audpl.go:46-109 | Parse fails exactly on: no line; a header key other than `title`; a header value PathUnescape rejects; a read error. It gives neither playlist nor error exactly on an empty stream without a read error, and reports the wrong header key |
| DecodeProperties.DecodeSuccess | audpl.go:58-114 | on success, the name is the unescaped header value, and the tracks are the appended snapshots followed by the final accumulator |
| DecodeProperties.PushedTracksHoldUri | audpl.go:76-78 | every appended track holds a URI and no comment |
| DecodeProperties.DecodedTracks | audpl.go:76-112 | at least one track; all but the last hold a URI; no track has a comment |
| DecodeProperties.NoUriLineNoPush | audpl.go:72-81 | without `uri` lines nothing is appended and no URI is held |
| DecodeProperties.DecodeWithoutUri | audpl.go:68-112 | a body without `uri` lines gives exactly one track, with no URI and each field's last value |
| DecodeProperties.PushCount | audpl.go:72-81 | when every URI parses, a URI is held iff some `uri` line was read, and one track is appended per `uri` line after the first |
| DecodeProperties.DecodeTrackCount | audpl.go:70-112 | when every URI parses, the track count equals the number of `uri` lines, or is 1 when there is none |
| DecodeProperties.RunOnlyAppends | audpl.go:70-105 | the tracks after a prefix of the lines are a prefix of the final tracks: appended tracks never change |
| DecodeProperties.HeaderOnlyIsNotSavable | audpl.go:49-134 | a header-only stream decodes to one empty track without a URI, which SaveTo's precondition rules out |
| DecodeProperties.SplitKVKeepsEscapes | audpl.go:117-124 | on the test's header line, splitKV keeps `%27` and `%20` undecoded |
| DecodeProperties.SplitKVWithoutEq | audpl.go:119-120 | `invalid input` splits to itself and an empty value |
| EncodeProperties.FieldOrderIncreasing | audpl.go:133-146 | SaveTo's field list has every field once, in the fixed order |
| EncodeProperties.PairLinesMembers | audpl.go:166-180 | a line is emitted iff it is `k=v` for a pair with a non-empty value; at most one line per pair |
| EncodeProperties.FieldLinesCons | audpl.go:167-173 | the first pair's line, if any, precedes the rest's lines |
| EncodeProperties.FieldLinesSound | audpl.go:133-173 | each field line carries a listed field's key and its non-empty written text |
| EncodeProperties.FieldLinesOrdered | audpl.go:133-146 | field lines follow the fixed key order strictly |
| EncodeProperties.FieldLinesComplete | audpl.go:133-173 | every listed field with non-empty written text has its line |
| EncodeProperties.TrackLinesCons | audpl.go:133-134 | a track's lines are its `uri` line (unless the URL prints empty), then its field lines |
| EncodeProperties.FieldLinesWritten | audpl.go:133-146 | every field line is a key SaveTo writes, with the value it writes for it |
| EncodeProperties.TrackLinesShape | audpl.go:132-146 | a track's lines carry written keys with their non-empty written values, in strictly ascending key order from `uri` to `quality`, and include every non-empty one |
| EncodeProperties.WritesExactlyNonEmptyFields | audpl.go:135-171 | when path-escaping maps only "" to "", a field has its line iff the field is non-empty |
| EncodeProperties.TracksLinesKeys | audpl.go:132-151 | every track line carries a key that SaveTo writes |
| EncodeProperties.SaveLinesShape | audpl.go:126-154 | the first line is `title` with the query-escaped name; no later line has a `comment` key or any key the decoder ignores |
| SaveThenParse.RunAppend | audpl.go:70-105 | the decoding loop over two runs of lines is the loop over the first, continued over the second |
| SaveThenParse.FieldLinesRun | audpl.go:82-146 | reading back a track's field lines sets, front to back, each field with non-empty written text |
| SaveThenParse.GetApplyFields | audpl.go:82-104 | those assignments leave each field as its written text when non-empty, else unchanged, and never touch the URI or comment |
| SaveThenParse.TrackRun | audpl.go:72-146 | reading back one track's lines, when its URL prints non-empty and re-parses to itself, appends the held accumulator if it has a URI, and leaves the track's URI with each field its written text if non-empty, else the held value, and the held comment |
| SaveThenParse.TrackRunEmptyUri | audpl.go:72-171 | a track whose URL prints as "" writes no `uri` line, so reading its lines back appends nothing, keeps the held URI, and sets each field to its written text if non-empty, else the held value |
| SaveThenParse.EmptyUriMerges | audpl.go:46-171 | saving two tracks, the second with a URL that prints as "", and parsing the result gives one track, holding the first track's URI |
| SaveThenParse.TracksRun | audpl.go:70-151 | reading back all tracks' lines yields the carried-over rebuild of every track after the flushed state |
| SaveThenParse.SaveThenParseExact | audpl.go:46-154 | when every track's URL prints non-empty and `url.Parse` reads it back as the same URL, Parse of SaveTo's lines is an error iff PathUnescape rejects the query-escaped name; otherwise that name with the tracks rebuilt by carrying fields over, or one empty track for an empty playlist |
| SaveThenParse.CarriedAt | audpl.go:68-81 | each rebuilt track is the overlay of its saved track on the track rebuilt just before it, so it takes the saved URI, each field is the saved written text when non-empty, else the previous rebuilt track's field, and the comment stays the held one |
| SaveThenParse.OverlayPlain | audpl.go:72-146 | a track whose fields are all non-empty, whose five path-escaped fields are unchanged by path-escaping, and which has no comment, is rebuilt exactly from its lines |
| SaveThenParse.RoundTripWhenNothingToEscape | audpl.go:46-154 | when the name survives escaping, and every track has a reparsable URI, no comment, only non-empty fields, and title, artist, album, album-artist and genre that path-escaping leaves alone, save then parse gives back the playlist |
| SaveThenParse.FieldsCarryOver | audpl.go:68-81 | after save then parse, an empty field takes the previous track's value, and a non-empty one comes back path-escaped or raw, never decoded |

## Left out

- `ParseFile` (audpl.go:36-44) opens and closes a file. That is I/O and is not modelled.
- `bufio.Scanner` is reduced to the lines it yields and one flag for a read error (`Scan`). The model does not cover:
  - how lines are found;
  - how a trailing `\r` is stripped;
  - the 64 KiB token limit, which the model treats as a read error;
  - Go's error message texts (a `ParseError` value stands for each).
- Write errors from the `io.Writer` in `SaveTo` and `writePair` are not modelled. The output is the sequence of lines written, each implicitly ended by `\n`.
- `SaveToBytes` (audpl.go:156-164) renders the same lines into a byte buffer, so it adds nothing beyond `SaveTo`. Byte rendering is not modelled.
- The net/url functions `Parse`, `(*URL).String`, `QueryEscape`, `PathEscape` and `PathUnescape` are passed in as an arbitrary `UrlLib`. Their percent-encoding rules (section 2.1 of RFC 3986) are not modelled. The two facts some lemmas need are stated as preconditions: `PathEscapeKeepsEmptiness` and `PrintsAndReparses`.
- SaveThenParse.SaveThenParseExact assumes that every written line is read back as one line. A raw field (year, track-number, length, bitrate, codec, quality) or a printed URL containing a line break would be split by the scanner, and this is not modelled.
- SaveThenParse.SaveThenParseExact does not cover a track whose URL prints as "" (`url.Parse("")` succeeds and gives such a URL). SaveTo writes no `uri` line for it, and on re-parse its fields merge into the previous track. This is stated for one track by `TrackRunEmptyUri` and for a two-track playlist by `EmptyUriMerges`, not for playlists in general.
- Go strings are byte sequences; the model's strings are sequences of characters. Splitting at `=` is unaffected, but a line holding invalid UTF-8 cannot be represented.
- Audpl.WritePair requires an even number of arguments. Go would index past the end on an odd count, but `SaveTo` always passes 24.
- There is no general save-then-parse identity, because the code does not guarantee one. The model states instead exactly what comes back when every URL prints non-empty and re-parses to itself (`SaveThenParseExact`), and when the identity does hold.
- The capacity hint `make([]Track, 0, 2)` has no observable effect and is not modelled.
- The test helpers and fixture loading in `audpl_test.go` are not modelled.
