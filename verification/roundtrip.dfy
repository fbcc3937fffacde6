/**
 The round trip between the two halves of the program: the share message
 derived from a successful report lists every game archive as `Part k` with
 its size and URL, then the hint, then every audio archive under its
 language label with its size and URL, in the order the response lists them.

 The round trip holds when the fields the formatter writes can be read back:
 no field breaks a line, a URL or language code has no surrounding whitespace
 and does not contain the prefix written before it, a language code is not
 empty, and a rendered size has no surrounding whitespace and contains no `[`
 and no `G`.
 */
module RoundTrip {
  import opened Text
  import opened Api
  import opened Report
  import opened Share

  // ---------------------------------------------------------------------
  // When a field survives the round trip

  /** A field written after `prefix` on its own line that reads back unchanged. */
  predicate SafeField(s: string, prefix: string) {
    '\n' !in s && Trimmed(s) && !Contains(s, prefix)
  }

  /** A rendered size that reads back unchanged from a `[Size] ...GB` line.
      `{:.2}` of an `f64` writes only digits, `.`, `-`, `inf` or `NaN`, so the
      program's rendering always is one. */
  predicate SafeSize(r: string) {
    '\n' !in r && Trimmed(r) && '[' !in r && 'G' !in r
  }

  predicate SafePackage(p: Package, fmt: string -> string) {
    SafeField(p.url, UrlPrefix) && SafeSize(fmt(p.size)) && '\n' !in fmt(p.decompressedSize)
  }

  predicate SafeAudio(a: AudioPackage, fmt: string -> string) {
    a.language != [] && SafeField(a.language, LanguagePrefix)
    && SafeField(a.url, UrlPrefix) && SafeSize(fmt(a.size)) && '\n' !in fmt(a.decompressedSize)
  }

  predicate SafeMajor(m: Major, fmt: string -> string) {
    (forall i :: 0 <= i < |m.gamePkgs| ==> SafePackage(m.gamePkgs[i], fmt))
    && (forall i :: 0 <= i < |m.audioPkgs| ==> SafeAudio(m.audioPkgs[i], fmt))
  }

  predicate SafeGames(gps: seq<GamePackage>, fmt: string -> string) {
    forall i :: 0 <= i < |gps| && gps[i].main.major.Some? ==> SafeMajor(gps[i].main.major.value, fmt)
  }

  lemma {:induction false} SafeGamesSnoc(gps: seq<GamePackage>, fmt: string -> string)
    requires gps != [] && SafeGames(gps, fmt)
    ensures SafeGames(gps[..|gps| - 1], fmt)
    ensures gps[|gps| - 1].main.major.Some? ==> SafeMajor(gps[|gps| - 1].main.major.value, fmt)
  {
    assert forall i :: 0 <= i < |gps| - 1 ==> gps[..|gps| - 1][i] == gps[i];
  }

  // ---------------------------------------------------------------------
  // What the share message should list

  function PartEntry(n: nat, p: Package, fmt: string -> string): Entry {
    Entry("Part " + NatToString(n), fmt(p.size), p.url)
  }

  /** One entry per game archive, numbered from `first`. */
  function PartEntries(ps: seq<Package>, first: nat, fmt: string -> string): seq<Entry> {
    if ps == [] then [] else [PartEntry(first, ps[0], fmt)] + PartEntries(ps[1..], first + 1, fmt)
  }

  function AudioEntry(a: AudioPackage, fmt: string -> string): Entry {
    Entry(AudioLabel(a.language), fmt(a.size), a.url)
  }

  /** One entry per audio archive. */
  function AudioEntries(aps: seq<AudioPackage>, fmt: string -> string): seq<Entry> {
    if aps == [] then [] else [AudioEntry(aps[0], fmt)] + AudioEntries(aps[1..], fmt)
  }

  /** The part entries of one listed game; the numbering starts at 1. */
  function GameParts(gp: GamePackage, fmt: string -> string): seq<Entry> {
    match gp.main.major
    case Some(m) => PartEntries(m.gamePkgs, 1, fmt)
    case None => []
  }

  function GameAudio(gp: GamePackage, fmt: string -> string): seq<Entry> {
    match gp.main.major
    case Some(m) => AudioEntries(m.audioPkgs, fmt)
    case None => []
  }

  /** The part entries of every listed game, game after game. */
  function ExpectedParts(gps: seq<GamePackage>, fmt: string -> string): seq<Entry> {
    if gps == [] then [] else ExpectedParts(gps[..|gps| - 1], fmt) + GameParts(gps[|gps| - 1], fmt)
  }

  /** The audio entries of every listed game, game after game. */
  function ExpectedAudio(gps: seq<GamePackage>, fmt: string -> string): seq<Entry> {
    if gps == [] then [] else ExpectedAudio(gps[..|gps| - 1], fmt) + GameAudio(gps[|gps| - 1], fmt)
  }

  // ---------------------------------------------------------------------
  // The report's lines after trimming and dropping empty ones

  /** A `[URL] ` line after trimming: an empty URL leaves `[URL]`. */
  function UrlLine(url: string): string {
    if url == [] then "[URL]" else UrlPrefix + url
  }

  function CleanGameBlock(n: nat, p: Package, fmt: string -> string): seq<string> {
    [ PartLine(n),
      UrlLine(p.url),
      SizeLine(SizePrefix, fmt(p.size)),
      SizeLine(DecompressedPrefix, fmt(p.decompressedSize)) ]
  }

  function CleanAudioBlock(a: AudioPackage, fmt: string -> string): seq<string> {
    [ LanguagePrefix + a.language,
      UrlLine(a.url),
      SizeLine(SizePrefix, fmt(a.size)),
      SizeLine(DecompressedPrefix, fmt(a.decompressedSize)) ]
  }

  function CleanGameBlocks(ps: seq<Package>, first: nat, fmt: string -> string): seq<string> {
    if ps == [] then [] else CleanGameBlock(first, ps[0], fmt) + CleanGameBlocks(ps[1..], first + 1, fmt)
  }

  function CleanAudioBlocks(aps: seq<AudioPackage>, fmt: string -> string): seq<string> {
    if aps == [] then [] else CleanAudioBlock(aps[0], fmt) + CleanAudioBlocks(aps[1..], fmt)
  }

  predicate HeaderFree(ls: seq<string>) {
    forall i :: 0 <= i < |ls| ==> !IsHeader(ls[i])
  }

  predicate NoNewlines(ls: seq<string>) {
    forall i :: 0 <= i < |ls| ==> '\n' !in ls[i]
  }

  // ---------------------------------------------------------------------
  // Single lines

  /** A line opened by `[` and closed by a non-space is its own trim and no header. */
  lemma {:induction false} BracketLine(s: string)
    requires |s| > 0 && s[0] == '[' && !IsSpace(s[|s| - 1])
    ensures Trim(s) == s
    ensures !IsHeader(s)
  {
    TrimSpec(s);
    assert GameHeader[0] != '[' && AudioHeader[0] != '[';
  }

  lemma {:induction false} PartLineClean(n: nat)
    ensures Trim(PartLine(n)) == PartLine(n) && !IsHeader(PartLine(n))
    ensures StartsWith(PartLine(n), PartMarker)
  {
    var s := PartLine(n);
    assert s == PartPrefix + (NatToString(n) + "]");
    assert s[0] == '[' && s[|s| - 1] == ']';
    BracketLine(s);
    assert s[..|PartMarker|] == PartMarker;
  }

  lemma {:induction false} UrlLineClean(url: string)
    requires url == [] || (Trimmed(url) && '\n' !in url)
    ensures Trim(UrlPrefix + url) == UrlLine(url) && !IsHeader(UrlLine(url))
    ensures |UrlLine(url)| > 1 && UrlLine(url)[1] == 'U'
  {
    if url == [] {
      assert UrlPrefix + url == "[URL] ";
      assert TrimStart("[URL] ") == "[URL] ";
      assert "[URL] "[..5] == "[URL]";
      assert TrimEnd("[URL] ") == TrimEnd("[URL]");
      assert TrimEnd("[URL]") == "[URL]";
      BracketLine("[URL]");
    } else {
      var s := UrlPrefix + url;
      assert s[0] == '[' && s[|s| - 1] == url[|url| - 1];
      BracketLine(s);
    }
  }

  lemma {:induction false} SizeLineClean(prefix: string, r: string)
    requires |prefix| > 1 && prefix[0] == '['
    ensures Trim(SizeLine(prefix, r)) == SizeLine(prefix, r) && !IsHeader(SizeLine(prefix, r))
    ensures SizeLine(prefix, r)[1] == prefix[1]
  {
    var s := SizeLine(prefix, r);
    assert s[0] == '[' && s[|s| - 1] == 'B';
    BracketLine(s);
  }

  lemma {:induction false} LanguageLineClean(code: string)
    requires code != [] && Trimmed(code)
    ensures Trim(LanguagePrefix + code) == LanguagePrefix + code && !IsHeader(LanguagePrefix + code)
    ensures StartsWith(LanguagePrefix + code, LanguagePrefix)
  {
    var s := LanguagePrefix + code;
    assert s[0] == '[' && s[|s| - 1] == code[|code| - 1];
    BracketLine(s);
    assert s[..|LanguagePrefix|] == LanguagePrefix;
  }

  // ---------------------------------------------------------------------
  // Blocks

  /** Trimming a game block keeps its four lines, with `[URL]` for an empty
      URL, and drops the empty line. */
  lemma {:induction false} CleanGameBlockOf(n: nat, p: Package, fmt: string -> string)
    requires SafePackage(p, fmt)
    ensures Clean(GameBlock(n, p, fmt)) == CleanGameBlock(n, p, fmt)
    ensures HeaderFree(CleanGameBlock(n, p, fmt))
  {
    var b := GameBlock(n, p, fmt);
    PartLineClean(n);
    UrlLineClean(p.url);
    SizeLineClean(SizePrefix, fmt(p.size));
    SizeLineClean(DecompressedPrefix, fmt(p.decompressedSize));
    assert Trim("") == "";
    assert b == [b[0]] + ([b[1]] + ([b[2]] + ([b[3]] + ([b[4]] + []))));
    CleanCons(b[4], []);
    CleanCons(b[3], [b[4]]);
    CleanCons(b[2], [b[3], b[4]]);
    CleanCons(b[1], [b[2], b[3], b[4]]);
    CleanCons(b[0], [b[1], b[2], b[3], b[4]]);
  }

  lemma {:induction false} CleanAudioBlockOf(a: AudioPackage, fmt: string -> string)
    requires SafeAudio(a, fmt)
    ensures Clean(AudioBlock(a, fmt)) == CleanAudioBlock(a, fmt)
    ensures HeaderFree(CleanAudioBlock(a, fmt))
  {
    var b := AudioBlock(a, fmt);
    LanguageLineClean(a.language);
    UrlLineClean(a.url);
    SizeLineClean(SizePrefix, fmt(a.size));
    SizeLineClean(DecompressedPrefix, fmt(a.decompressedSize));
    assert Trim("") == "";
    assert b == [b[0]] + ([b[1]] + ([b[2]] + ([b[3]] + ([b[4]] + []))));
    CleanCons(b[4], []);
    CleanCons(b[3], [b[4]]);
    CleanCons(b[2], [b[3], b[4]]);
    CleanCons(b[1], [b[2], b[3], b[4]]);
    CleanCons(b[0], [b[1], b[2], b[3], b[4]]);
  }

  // ---------------------------------------------------------------------
  // Values read back

  /** The URL read back from a formatted `[URL] ` line is the URL. */
  lemma {:induction false} UrlReadBack(url: string)
    requires url != [] && SafeField(url, UrlPrefix)
    ensures StartsWith(UrlLine(url), UrlPrefix) && UrlText(UrlLine(url)) == url
  {
    assert (UrlPrefix + url)[..|UrlPrefix|] == UrlPrefix;
    RemoveAllLeading(UrlPrefix, url);
  }

  /** The size read back from a formatted `[Size] ` line is the rendered size. */
  lemma {:induction false} SizeReadBack(r: string)
    requires SafeSize(r)
    ensures StartsWith(SizeLine(SizePrefix, r), SizePrefix) && SizeText(SizeLine(SizePrefix, r)) == r
  {
    var s := SizeLine(SizePrefix, r);
    assert s == SizePrefix + (r + SizeUnit);
    assert s[..|SizePrefix|] == SizePrefix;
    RemoveAllLeading(SizePrefix, r + SizeUnit);
    assert '[' !in r + SizeUnit;
    AbsentFirstChar(r + SizeUnit, SizePrefix);
    RemoveAllTrailing(r, SizeUnit);
    TrimSpec(r);
  }

  /** The body of a formatted block yields its URL and its size. */
  lemma {:induction false} BodyValues(url: string, r: string, d: string)
    requires SafeField(url, UrlPrefix) && SafeSize(r)
    ensures var body := [UrlLine(url), SizeLine(SizePrefix, r), SizeLine(DecompressedPrefix, d)];
            UrlValue(body) == url && SizeValue(body) == r
  {
    var u, s := UrlLine(url), SizeLine(SizePrefix, r);
    assert [u, s, SizeLine(DecompressedPrefix, d)] == [u, s] + [SizeLine(DecompressedPrefix, d)];
    DecompressedLineKeepsSize([u, s], d);
    UrlSizeValues(url, r);
  }

  lemma {:induction false} UrlSizeValues(url: string, r: string)
    requires SafeField(url, UrlPrefix) && SafeSize(r)
    ensures UrlValue([UrlLine(url), SizeLine(SizePrefix, r)]) == url
    ensures SizeValue([UrlLine(url), SizeLine(SizePrefix, r)]) == r
  {
    var u, s := UrlLine(url), SizeLine(SizePrefix, r);
    assert [u, s] == [u] + [s];
    ValuesSnoc([u], s);
    DiffersAt(s, UrlPrefix, 1);
    SizeReadBack(r);
    UrlOfUrlLine(url);
  }

  lemma {:induction false} UrlOfUrlLine(url: string)
    requires SafeField(url, UrlPrefix)
    ensures UrlValue([UrlLine(url)]) == url
  {
    var u := UrlLine(url);
    assert [u] == [] + [u];
    ValuesSnoc([], u);
    if url == [] {
      assert !StartsWith(u, UrlPrefix);
    } else {
      UrlReadBack(url);
    }
  }

  // ---------------------------------------------------------------------
  // Entries of blocks

  /** A trimmed game block yields exactly its part entry. */
  lemma {:induction false} PartsOfBlock(n: nat, p: Package, fmt: string -> string)
    requires SafePackage(p, fmt)
    ensures RegionEntries(Parts, CleanGameBlock(n, p, fmt)) == [PartEntry(n, p, fmt)]
  {
    var ls := CleanGameBlock(n, p, fmt);
    PartLineClean(n);
    UrlLineClean(p.url);
    SizeLineClean(SizePrefix, fmt(p.size));
    SizeLineClean(DecompressedPrefix, fmt(p.decompressedSize));
    DiffersAt(ls[1], PartMarker, 1);
    DiffersAt(ls[2], PartMarker, 1);
    DiffersAt(ls[3], PartMarker, 1);
    GroupsAtMarker(ls, 0, 4, PartMarker);
    assert ls[0..] == ls && ls[4..] == [];
    var g := Group(ls[0], ls[1..4]);
    assert Groups(ls, PartMarker) == [g];
    assert ls[1..4] == [UrlLine(p.url), SizeLine(SizePrefix, fmt(p.size)), SizeLine(DecompressedPrefix, fmt(p.decompressedSize))];
    BodyValues(p.url, fmt(p.size), fmt(p.decompressedSize));
    PartNumberOfPartLine(n);
    assert Entries(Parts, [g]) == [EntryOf(Parts, g)];
  }

  /** The language code read back from a formatted `[Language] ` line is the code. */
  lemma {:induction false} LanguageReadBack(code: string)
    requires SafeField(code, LanguagePrefix)
    ensures RemoveAll(LanguagePrefix + code, LanguagePrefix) == code
  {
    RemoveAllLeading(LanguagePrefix, code);
  }

  /** A trimmed audio block yields exactly its audio entry. */
  lemma {:induction false} AudioOfBlock(a: AudioPackage, fmt: string -> string)
    requires SafeAudio(a, fmt)
    ensures RegionEntries(Audio, CleanAudioBlock(a, fmt)) == [AudioEntry(a, fmt)]
  {
    var ls := CleanAudioBlock(a, fmt);
    LanguageLineClean(a.language);
    UrlLineClean(a.url);
    SizeLineClean(SizePrefix, fmt(a.size));
    SizeLineClean(DecompressedPrefix, fmt(a.decompressedSize));
    DiffersAt(ls[1], LanguagePrefix, 1);
    DiffersAt(ls[2], LanguagePrefix, 1);
    DiffersAt(ls[3], LanguagePrefix, 1);
    GroupsAtMarker(ls, 0, 4, LanguagePrefix);
    assert ls[0..] == ls && ls[4..] == [];
    var g := Group(ls[0], ls[1..4]);
    assert Groups(ls, LanguagePrefix) == [g];
    assert ls[1..4] == [UrlLine(a.url), SizeLine(SizePrefix, fmt(a.size)), SizeLine(DecompressedPrefix, fmt(a.decompressedSize))];
    BodyValues(a.url, fmt(a.size), fmt(a.decompressedSize));
    LanguageReadBack(a.language);
    assert Entries(Audio, [g]) == [EntryOf(Audio, g)];
  }

  // ---------------------------------------------------------------------
  // Runs of blocks

  lemma {:induction false} HeaderFreeAppend(a: seq<string>, b: seq<string>)
    requires HeaderFree(a) && HeaderFree(b)
    ensures HeaderFree(a + b)
  {
    assert forall i :: |a| <= i < |a + b| ==> (a + b)[i] == b[i - |a|];
  }

  /** Trimming the game blocks trims each block. */
  lemma {:induction false} GameBlocksClean(ps: seq<Package>, first: nat, fmt: string -> string)
    requires forall i :: 0 <= i < |ps| ==> SafePackage(ps[i], fmt)
    ensures Clean(GameBlocks(ps, first, fmt)) == CleanGameBlocks(ps, first, fmt)
    ensures HeaderFree(CleanGameBlocks(ps, first, fmt))
    decreases |ps|
  {
    if ps != [] {
      assert SafePackage(ps[0], fmt);
      CleanAppend(GameBlock(first, ps[0], fmt), GameBlocks(ps[1..], first + 1, fmt));
      CleanGameBlockOf(first, ps[0], fmt);
      GameBlocksClean(ps[1..], first + 1, fmt);
      HeaderFreeAppend(CleanGameBlock(first, ps[0], fmt), CleanGameBlocks(ps[1..], first + 1, fmt));
    }
  }

  lemma {:induction false} AudioBlocksClean(aps: seq<AudioPackage>, fmt: string -> string)
    requires forall i :: 0 <= i < |aps| ==> SafeAudio(aps[i], fmt)
    ensures Clean(AudioBlocks(aps, fmt)) == CleanAudioBlocks(aps, fmt)
    ensures HeaderFree(CleanAudioBlocks(aps, fmt))
    decreases |aps|
  {
    if aps != [] {
      assert SafeAudio(aps[0], fmt);
      CleanAppend(AudioBlock(aps[0], fmt), AudioBlocks(aps[1..], fmt));
      CleanAudioBlockOf(aps[0], fmt);
      AudioBlocksClean(aps[1..], fmt);
      HeaderFreeAppend(CleanAudioBlock(aps[0], fmt), CleanAudioBlocks(aps[1..], fmt));
    }
  }

  /** The trimmed game blocks yield one part entry per archive, numbered from `first`. */
  lemma {:induction false} GameBlocksEntries(ps: seq<Package>, first: nat, fmt: string -> string)
    requires forall i :: 0 <= i < |ps| ==> SafePackage(ps[i], fmt)
    ensures CleanGameBlocks(ps, first, fmt) == [] || StartsWith(CleanGameBlocks(ps, first, fmt)[0], PartMarker)
    ensures RegionEntries(Parts, CleanGameBlocks(ps, first, fmt)) == PartEntries(ps, first, fmt)
    decreases |ps|
  {
    if ps == [] {
      assert RegionEntries(Parts, []) == [];
    } else {
      assert SafePackage(ps[0], fmt);
      PartLineClean(first);
      GameBlocksEntries(ps[1..], first + 1, fmt);
      RegionEntriesAppend(Parts, CleanGameBlock(first, ps[0], fmt), CleanGameBlocks(ps[1..], first + 1, fmt));
      PartsOfBlock(first, ps[0], fmt);
    }
  }

  /** The trimmed audio blocks yield one audio entry per archive. */
  lemma {:induction false} AudioBlocksEntries(aps: seq<AudioPackage>, fmt: string -> string)
    requires forall i :: 0 <= i < |aps| ==> SafeAudio(aps[i], fmt)
    ensures CleanAudioBlocks(aps, fmt) == [] || StartsWith(CleanAudioBlocks(aps, fmt)[0], LanguagePrefix)
    ensures RegionEntries(Audio, CleanAudioBlocks(aps, fmt)) == AudioEntries(aps, fmt)
    decreases |aps|
  {
    if aps == [] {
      assert RegionEntries(Audio, []) == [];
    } else {
      assert SafeAudio(aps[0], fmt);
      LanguageLineClean(aps[0].language);
      AudioBlocksEntries(aps[1..], fmt);
      RegionEntriesAppend(Audio, CleanAudioBlock(aps[0], fmt), CleanAudioBlocks(aps[1..], fmt));
      AudioOfBlock(aps[0], fmt);
    }
  }

  // ---------------------------------------------------------------------
  // Sections

  /** A header line followed by header-free lines: the lines go to the
      region the header selects, and the mode is the header's. */
  lemma {:induction false} SplitSection(h: string, body: seq<string>, m: Mode)
    requires IsHeader(h) && HeaderFree(body)
    ensures SplitFrom([h] + body, m)
         == Regions(if h == GameHeader then body else [], if h == AudioHeader then body else [])
    ensures ModeAfter([h] + body, m) == Step(m, h)
  {
    assert ([h] + body)[0] == h;
    assert ([h] + body)[1..] == body;
    SplitHeaderFree(body, Step(m, h));
  }

  /** Trimming a major report keeps its two headers and trims its blocks. */
  lemma {:induction false} MajorClean(m: Major, fmt: string -> string)
    requires SafeMajor(m, fmt)
    ensures Clean(MajorLines(m, fmt))
         == ([GameHeader] + CleanGameBlocks(m.gamePkgs, 1, fmt)) + ([AudioHeader] + CleanAudioBlocks(m.audioPkgs, fmt))
    ensures HeaderFree(CleanGameBlocks(m.gamePkgs, 1, fmt)) && HeaderFree(CleanAudioBlocks(m.audioPkgs, fmt))
  {
    var g := GameBlocks(m.gamePkgs, 1, fmt);
    var a := AudioBlocks(m.audioPkgs, fmt);
    assert MajorLines(m, fmt) == ([GameHeader] + g) + ([AudioHeader] + a);
    CleanAppend([GameHeader] + g, [AudioHeader] + a);
    CleanAppend([GameHeader], g);
    CleanAppend([AudioHeader], a);
    assert Trim(GameHeader) == GameHeader by { TrimSpec(GameHeader); }
    assert Trim(AudioHeader) == AudioHeader by { TrimSpec(AudioHeader); }
    CleanCons(GameHeader, []);
    CleanCons(AudioHeader, []);
    GameBlocksClean(m.gamePkgs, 1, fmt);
    AudioBlocksClean(m.audioPkgs, fmt);
  }

  /** A trimmed major report sends its game blocks to the game region and its
      audio blocks to the audio region, and leaves the audio region selected. */
  lemma {:induction false} MajorSplit(m: Major, fmt: string -> string, mode: Mode)
    requires SafeMajor(m, fmt)
    ensures SplitFrom(Clean(MajorLines(m, fmt)), mode)
         == Regions(CleanGameBlocks(m.gamePkgs, 1, fmt), CleanAudioBlocks(m.audioPkgs, fmt))
    ensures ModeAfter(Clean(MajorLines(m, fmt)), mode) == InAudio
  {
    var cg := CleanGameBlocks(m.gamePkgs, 1, fmt);
    var ca := CleanAudioBlocks(m.audioPkgs, fmt);
    MajorClean(m, fmt);
    SplitAppend([GameHeader] + cg, [AudioHeader] + ca, mode);
    ModeAfterAppend([GameHeader] + cg, [AudioHeader] + ca, mode);
    SplitSection(GameHeader, cg, mode);
    SplitSection(AudioHeader, ca, InGame);
  }

  // ---------------------------------------------------------------------
  // Listed games

  /** The sentinel line of a game without `major` survives trimming, is no
      header, and neither opens a group nor carries a value. */
  lemma {:induction false} SentinelLine()
    ensures Clean([NoMajorLine]) == [NoMajorLine] && !IsHeader(NoMajorLine)
    ensures !StartsWith(NoMajorLine, LanguagePrefix) && !StartsWith(NoMajorLine, UrlPrefix)
            && !StartsWith(NoMajorLine, SizePrefix)
  {
    TrimSpec(NoMajorLine);
    CleanCons(NoMajorLine, []);
    DiffersAt(NoMajorLine, LanguagePrefix, 0);
    DiffersAt(NoMajorLine, UrlPrefix, 0);
    DiffersAt(NoMajorLine, SizePrefix, 0);
  }

  /** Appending the trimmed lines of one more listed game, read in a mode
      other than InGame: the game region gains its part entries, the audio
      region its audio entries, and the mode stays out of InGame. */
  lemma {:induction false} EntryStep(pre: seq<string>, gp: GamePackage, fmt: string -> string)
    requires ModeAfter(pre, Outside) != InGame
    requires gp.main.major.Some? ==> SafeMajor(gp.main.major.value, fmt)
    ensures var all := pre + Clean(EntryLines(gp, fmt));
            ModeAfter(all, Outside) != InGame
            && RegionEntries(Parts, SplitFrom(all, Outside).game)
               == RegionEntries(Parts, SplitFrom(pre, Outside).game) + GameParts(gp, fmt)
            && RegionEntries(Audio, SplitFrom(all, Outside).audio)
               == RegionEntries(Audio, SplitFrom(pre, Outside).audio) + GameAudio(gp, fmt)
  {
    var e := Clean(EntryLines(gp, fmt));
    var mode := ModeAfter(pre, Outside);
    var r := SplitFrom(pre, Outside);
    SplitAppend(pre, e, Outside);
    ModeAfterAppend(pre, e, Outside);
    match gp.main.major
    case None =>
      SentinelLine();
      SplitHeaderFree([NoMajorLine], mode);
      assert r.game + [] == r.game;
      if mode == InAudio {
        JunkLineKeepsEntries(Audio, r.audio, NoMajorLine);
      } else {
        assert r.audio + [] == r.audio;
      }
    case Some(m) =>
      MajorSplit(m, fmt, mode);
      GameBlocksEntries(m.gamePkgs, 1, fmt);
      AudioBlocksEntries(m.audioPkgs, fmt);
      RegionEntriesAppend(Parts, r.game, CleanGameBlocks(m.gamePkgs, 1, fmt));
      RegionEntriesAppend(Audio, r.audio, CleanAudioBlocks(m.audioPkgs, fmt));
  }

  /** Reading back the trimmed report of `gps` yields the expected entries,
      and leaves a mode other than InGame. */
  lemma {:induction false} ReportRegions(gps: seq<GamePackage>, fmt: string -> string)
    requires SafeGames(gps, fmt)
    ensures ModeAfter(Clean(ReportLines(gps, fmt)), Outside) != InGame
    ensures RegionEntries(Parts, SplitFrom(Clean(ReportLines(gps, fmt)), Outside).game) == ExpectedParts(gps, fmt)
    ensures RegionEntries(Audio, SplitFrom(Clean(ReportLines(gps, fmt)), Outside).audio) == ExpectedAudio(gps, fmt)
    decreases |gps|
  {
    if gps == [] {
      assert RegionEntries(Parts, []) == [] && RegionEntries(Audio, []) == [];
    } else {
      var init, gp := gps[..|gps| - 1], gps[|gps| - 1];
      SafeGamesSnoc(gps, fmt);
      ReportRegions(init, fmt);
      assert ReportLines(gps, fmt) == ReportLines(init, fmt) + EntryLines(gp, fmt);
      CleanAppend(ReportLines(init, fmt), EntryLines(gp, fmt));
      EntryStep(Clean(ReportLines(init, fmt)), gp, fmt);
    }
  }

  // ---------------------------------------------------------------------
  // No line of the report breaks

  lemma {:induction false} NoNewlinesAppend(a: seq<string>, b: seq<string>)
    requires NoNewlines(a) && NoNewlines(b)
    ensures NoNewlines(a + b)
  {
    assert forall i :: |a| <= i < |a + b| ==> (a + b)[i] == b[i - |a|];
  }

  lemma {:induction false} GameBlocksNoNewlines(ps: seq<Package>, first: nat, fmt: string -> string)
    requires forall i :: 0 <= i < |ps| ==> SafePackage(ps[i], fmt)
    ensures NoNewlines(GameBlocks(ps, first, fmt))
    decreases |ps|
  {
    if ps != [] {
      var d := NatToString(first);
      assert '\n' !in d;
      assert SafePackage(ps[0], fmt);
      GameBlocksNoNewlines(ps[1..], first + 1, fmt);
      NoNewlinesAppend(GameBlock(first, ps[0], fmt), GameBlocks(ps[1..], first + 1, fmt));
    }
  }

  lemma {:induction false} AudioBlocksNoNewlines(aps: seq<AudioPackage>, fmt: string -> string)
    requires forall i :: 0 <= i < |aps| ==> SafeAudio(aps[i], fmt)
    ensures NoNewlines(AudioBlocks(aps, fmt))
    decreases |aps|
  {
    if aps != [] {
      assert SafeAudio(aps[0], fmt);
      AudioBlocksNoNewlines(aps[1..], fmt);
      NoNewlinesAppend(AudioBlock(aps[0], fmt), AudioBlocks(aps[1..], fmt));
    }
  }

  lemma {:induction false} MajorNoNewlines(m: Major, fmt: string -> string)
    requires SafeMajor(m, fmt)
    ensures NoNewlines(MajorLines(m, fmt))
  {
    var g := GameBlocks(m.gamePkgs, 1, fmt);
    var a := AudioBlocks(m.audioPkgs, fmt);
    GameBlocksNoNewlines(m.gamePkgs, 1, fmt);
    AudioBlocksNoNewlines(m.audioPkgs, fmt);
    NoNewlinesAppend([GameHeader], g);
    NoNewlinesAppend([GameHeader] + g, [AudioHeader]);
    NoNewlinesAppend([GameHeader] + g + [AudioHeader], a);
  }

  lemma {:induction false} ReportNoNewlines(gps: seq<GamePackage>, fmt: string -> string)
    requires SafeGames(gps, fmt)
    ensures NoNewlines(ReportLines(gps, fmt))
    decreases |gps|
  {
    if gps != [] {
      var init, gp := gps[..|gps| - 1], gps[|gps| - 1];
      SafeGamesSnoc(gps, fmt);
      ReportNoNewlines(init, fmt);
      assert ReportLines(gps, fmt) == ReportLines(init, fmt) + EntryLines(gp, fmt);
      if gp.main.major.Some? {
        MajorNoNewlines(gp.main.major.value, fmt);
      } else {
        assert EntryLines(gp, fmt) == [NoMajorLine];
      }
      NoNewlinesAppend(ReportLines(init, fmt), EntryLines(gp, fmt));
    }
  }

  // ---------------------------------------------------------------------
  // The round trip

  /** The share message derived from a successful report lists the part
      entries of every listed game (numbered from 1 within each game, with the
      archive's rendered size and URL), then the hint, then the audio entries
      of every listed game (labelled by language), all in response order. */
  lemma {:induction false} RoundTrip(resp: ApiResponse, fmt: string -> string)
    requires resp.retcode == 0
    requires SafeGames(resp.data.gamePackages, fmt)
    ensures FormatReport(resp, fmt).Ok?
    ensures ShareMessage(FormatReport(resp, fmt).value)
         == RenderAll(ExpectedParts(resp.data.gamePackages, fmt)) + Hint
            + RenderAll(ExpectedAudio(resp.data.gamePackages, fmt))
  {
    var gps := resp.data.gamePackages;
    ReportNoNewlines(gps, fmt);
    LinesOfJoinLines(ReportLines(gps, fmt));
    ReportRegions(gps, fmt);
  }
}
