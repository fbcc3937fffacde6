/**
 The report formatter: the part of the fetch routine that turns a decoded
 response into the plain-text report shown to the user. Rendering a byte
 count as gigabytes with two decimals is floating point and is passed in as
 `fmt`, the text that is written between `[Size] ` and `GB`.

 The report is modelled as its sequence of lines; the text is those lines,
 each followed by a newline (`JoinLines`). The empty line after every block
 is the second newline of the source's `"...GB\n\n"`.
 */
module Report {
  import opened Text
  import opened Api

  // The line vocabulary the formatter writes and the share-message parser reads.
  const GameHeader: string := "Game Packages:"
  const AudioHeader: string := "Audio Packages:"
  const NoMajorLine: string := "No major version data available."
  const ErrorPrefix: string := "API returned an error: "
  const PartPrefix: string := "[Part "
  const UrlPrefix: string := "[URL] "
  const SizePrefix: string := "[Size] "
  const DecompressedPrefix: string := "[Decompressed Size] "
  const LanguagePrefix: string := "[Language] "
  const SizeUnit: string := "GB"

  /** The line that opens the block of the n-th game archive. */
  function PartLine(n: nat): string {
    PartPrefix + NatToString(n) + "]"
  }

  function SizeLine(prefix: string, rendered: string): string {
    prefix + rendered + SizeUnit
  }

  /** The five lines written for game archive number `n`. */
  function GameBlock(n: nat, p: Package, fmt: string -> string): seq<string> {
    [ PartLine(n),
      UrlPrefix + p.url,
      SizeLine(SizePrefix, fmt(p.size)),
      SizeLine(DecompressedPrefix, fmt(p.decompressedSize)),
      "" ]
  }

  /** The five lines written for one audio archive. */
  function AudioBlock(a: AudioPackage, fmt: string -> string): seq<string> {
    [ LanguagePrefix + a.language,
      UrlPrefix + a.url,
      SizeLine(SizePrefix, fmt(a.size)),
      SizeLine(DecompressedPrefix, fmt(a.decompressedSize)),
      "" ]
  }

  /** The blocks of the game archives `ps`, numbered from `first`. */
  function GameBlocks(ps: seq<Package>, first: nat, fmt: string -> string): (r: seq<string>)
    ensures |r| == 5 * |ps|
  {
    if ps == [] then [] else GameBlock(first, ps[0], fmt) + GameBlocks(ps[1..], first + 1, fmt)
  }

  /** The blocks of the audio archives `aps`. */
  function AudioBlocks(aps: seq<AudioPackage>, fmt: string -> string): (r: seq<string>)
    ensures |r| == 5 * |aps|
  {
    if aps == [] then [] else AudioBlock(aps[0], fmt) + AudioBlocks(aps[1..], fmt)
  }

  /** Game block k sits at lines 5k..5k+5 and carries number first + k. */
  lemma {:induction false} GameBlocksLayout(ps: seq<Package>, first: nat, fmt: string -> string)
    ensures forall k :: 0 <= k < |ps| ==>
              GameBlocks(ps, first, fmt)[5 * k..5 * k + 5] == GameBlock(first + k, ps[k], fmt)
    decreases |ps|
  {
    if ps != [] {
      var rest := GameBlocks(ps[1..], first + 1, fmt);
      var r := GameBlocks(ps, first, fmt);
      GameBlocksLayout(ps[1..], first + 1, fmt);
      var b := GameBlock(first, ps[0], fmt);
      assert r == b + rest;
      assert r[0..5] == b;
      forall k | 1 <= k < |ps|
        ensures r[5 * k..5 * k + 5] == GameBlock(first + k, ps[k], fmt)
      {
        assert r[5 * k..5 * k + 5] == rest[5 * (k - 1)..5 * (k - 1) + 5];
        assert ps[k] == ps[1..][k - 1];
      }
    }
  }

  /** Audio block k sits at lines 5k..5k+5 and describes the k-th audio archive. */
  lemma {:induction false} AudioBlocksLayout(aps: seq<AudioPackage>, fmt: string -> string)
    ensures forall k :: 0 <= k < |aps| ==>
              AudioBlocks(aps, fmt)[5 * k..5 * k + 5] == AudioBlock(aps[k], fmt)
    decreases |aps|
  {
    if aps != [] {
      var rest := AudioBlocks(aps[1..], fmt);
      var r := AudioBlocks(aps, fmt);
      AudioBlocksLayout(aps[1..], fmt);
      var b := AudioBlock(aps[0], fmt);
      assert r == b + rest;
      assert r[0..5] == b;
      forall k | 1 <= k < |aps|
        ensures r[5 * k..5 * k + 5] == AudioBlock(aps[k], fmt)
      {
        assert r[5 * k..5 * k + 5] == rest[5 * (k - 1)..5 * (k - 1) + 5];
        assert aps[k] == aps[1..][k - 1];
      }
    }
  }

  /** The report of a present `major`. */
  function MajorLines(m: Major, fmt: string -> string): (r: seq<string>)
    ensures |r| == 2 + 5 * |m.gamePkgs| + 5 * |m.audioPkgs|
  {
    [GameHeader] + GameBlocks(m.gamePkgs, 1, fmt) + [AudioHeader] + AudioBlocks(m.audioPkgs, fmt)
  }

  /** The layout of a major report: the game header, one block per game
      archive labelled `[Part k+1]` in source order, the audio header, then
      one block per audio archive in source order. */
  lemma {:induction false} MajorLayout(m: Major, fmt: string -> string)
    ensures MajorLines(m, fmt)[0] == GameHeader
    ensures forall k :: 0 <= k < |m.gamePkgs| ==>
              MajorLines(m, fmt)[1 + 5 * k..6 + 5 * k] == GameBlock(k + 1, m.gamePkgs[k], fmt)
    ensures MajorLines(m, fmt)[1 + 5 * |m.gamePkgs|] == AudioHeader
    ensures forall k :: 0 <= k < |m.audioPkgs| ==>
              MajorLines(m, fmt)[2 + 5 * |m.gamePkgs| + 5 * k..7 + 5 * |m.gamePkgs| + 5 * k]
              == AudioBlock(m.audioPkgs[k], fmt)
  {
    var g := GameBlocks(m.gamePkgs, 1, fmt);
    var a := AudioBlocks(m.audioPkgs, fmt);
    var r := MajorLines(m, fmt);
    GameBlocksLayout(m.gamePkgs, 1, fmt);
    AudioBlocksLayout(m.audioPkgs, fmt);
    assert forall k :: 0 <= k < |m.gamePkgs| ==> r[1 + 5 * k..6 + 5 * k] == g[5 * k..5 * k + 5];
    assert forall k :: 0 <= k < |m.audioPkgs| ==>
             r[2 + 5 * |m.gamePkgs| + 5 * k..7 + 5 * |m.gamePkgs| + 5 * k] == a[5 * k..5 * k + 5];
  }

  /** The lines written for one listed game: its major report, or the sentinel line. */
  function EntryLines(gp: GamePackage, fmt: string -> string): (r: seq<string>)
    ensures gp.main.major.None? ==> r == [NoMajorLine]
    ensures gp.main.major.Some? ==> r == MajorLines(gp.main.major.value, fmt)
  {
    match gp.main.major
    case Some(m) => MajorLines(m, fmt)
    case None => [NoMajorLine]
  }

  /** The lines written for all listed games, in order. */
  function ReportLines(gps: seq<GamePackage>, fmt: string -> string): seq<string>
  {
    if gps == [] then [] else ReportLines(gps[..|gps| - 1], fmt) + EntryLines(gps[|gps| - 1], fmt)
  }

  /** The fetch routine after decoding: an error message for a non-zero
      status code, and otherwise the report of every listed game. */
  function FormatReport(resp: ApiResponse, fmt: string -> string): (r: Result<string>)
    ensures r.Err? <==> resp.retcode != 0
    ensures r.Err? ==> r.error == ErrorPrefix + resp.message
  {
    if resp.retcode != 0 then Err(ErrorPrefix + resp.message)
    else Ok(JoinLines(ReportLines(resp.data.gamePackages, fmt)))
  }

  /** Each listed game appends its own text to the report: a game without
      `major` appends exactly the sentinel line. */
  lemma {:induction false} ReportTextAppend(gps: seq<GamePackage>, gp: GamePackage, fmt: string -> string)
    ensures JoinLines(ReportLines(gps + [gp], fmt))
         == JoinLines(ReportLines(gps, fmt)) + JoinLines(EntryLines(gp, fmt))
    ensures gp.main.major.None? ==>
              JoinLines(ReportLines(gps + [gp], fmt)) == JoinLines(ReportLines(gps, fmt)) + NoMajorLine + "\n"
  {
    assert (gps + [gp])[..|gps|] == gps;
    JoinLinesAppend(ReportLines(gps, fmt), EntryLines(gp, fmt));
    JoinLinesCons(NoMajorLine, []);
  }

  /** The `[Part` lines of one game block: only its first line. */
  lemma {:induction false} GameBlockPartLines(n: nat, p: Package, fmt: string -> string)
    ensures Select(GameBlock(n, p, fmt), "[Part") == [PartLine(n)]
  {
    var b := GameBlock(n, p, fmt);
    assert StartsWith(b[0], "[Part");
    DiffersAt(b[1], "[Part", 1);
    DiffersAt(b[2], "[Part", 1);
    DiffersAt(b[3], "[Part", 1);
    assert !StartsWith(b[4], "[Part");
    assert b == [b[0]] + ([b[1]] + ([b[2]] + ([b[3]] + ([b[4]] + []))));
    SelectCons(b[4], [], "[Part");
    SelectCons(b[3], [b[4]], "[Part");
    SelectCons(b[2], [b[3], b[4]], "[Part");
    SelectCons(b[1], [b[2], b[3], b[4]], "[Part");
    SelectCons(b[0], [b[1], b[2], b[3], b[4]], "[Part");
  }

  /** No line of an audio block starts with `[Part`. */
  lemma {:induction false} AudioBlockNoPartLines(a: AudioPackage, fmt: string -> string)
    ensures Select(AudioBlock(a, fmt), "[Part") == []
  {
    var b := AudioBlock(a, fmt);
    DiffersAt(b[0], "[Part", 1);
    DiffersAt(b[1], "[Part", 1);
    DiffersAt(b[2], "[Part", 1);
    DiffersAt(b[3], "[Part", 1);
    assert !StartsWith(b[4], "[Part");
    assert b == [b[0]] + ([b[1]] + ([b[2]] + ([b[3]] + ([b[4]] + []))));
    SelectCons(b[4], [], "[Part");
    SelectCons(b[3], [b[4]], "[Part");
    SelectCons(b[2], [b[3], b[4]], "[Part");
    SelectCons(b[1], [b[2], b[3], b[4]], "[Part");
    SelectCons(b[0], [b[1], b[2], b[3], b[4]], "[Part");
  }

  /** The `[Part` lines of the game blocks are `[Part first]`, `[Part first+1]`, ... in order. */
  lemma {:induction false} GameBlocksPartLines(ps: seq<Package>, first: nat, fmt: string -> string)
    ensures |Select(GameBlocks(ps, first, fmt), "[Part")| == |ps|
    ensures forall k :: 0 <= k < |ps| ==> Select(GameBlocks(ps, first, fmt), "[Part")[k] == PartLine(first + k)
    decreases |ps|
  {
    if ps != [] {
      var rest := GameBlocks(ps[1..], first + 1, fmt);
      assert GameBlocks(ps, first, fmt) == GameBlock(first, ps[0], fmt) + rest;
      SelectAppend(GameBlock(first, ps[0], fmt), rest, "[Part");
      GameBlockPartLines(first, ps[0], fmt);
      GameBlocksPartLines(ps[1..], first + 1, fmt);
    }
  }

  /** No audio block line starts with `[Part`. */
  lemma {:induction false} AudioBlocksNoPartLines(aps: seq<AudioPackage>, fmt: string -> string)
    ensures Select(AudioBlocks(aps, fmt), "[Part") == []
    decreases |aps|
  {
    if aps != [] {
      SelectAppend(AudioBlock(aps[0], fmt), AudioBlocks(aps[1..], fmt), "[Part");
      AudioBlockNoPartLines(aps[0], fmt);
      AudioBlocksNoPartLines(aps[1..], fmt);
    }
  }

  /** The major report has exactly one `[Part` line per game archive, and the
      k-th of them is `[Part k]`: numbering starts at 1 and follows source order. */
  lemma {:induction false} PartLinesNumbered(m: Major, fmt: string -> string)
    ensures |Select(MajorLines(m, fmt), "[Part")| == |m.gamePkgs|
    ensures forall k :: 0 <= k < |m.gamePkgs| ==> Select(MajorLines(m, fmt), "[Part")[k] == PartLine(k + 1)
  {
    var g := GameBlocks(m.gamePkgs, 1, fmt);
    var a := AudioBlocks(m.audioPkgs, fmt);
    GameBlocksPartLines(m.gamePkgs, 1, fmt);
    AudioBlocksNoPartLines(m.audioPkgs, fmt);
    SelectAppend([GameHeader] + g + [AudioHeader], a, "[Part");
    SelectAppend([GameHeader] + g, [AudioHeader], "[Part");
    SelectAppend([GameHeader], g, "[Part");
    DiffersAt(GameHeader, "[Part", 0);
    DiffersAt(AudioHeader, "[Part", 0);
    SelectCons(GameHeader, [], "[Part");
    SelectCons(AudioHeader, [], "[Part");
  }
}
