/**
 The share-message re-deriver (`convert_to_message`). It reads the report
 TEXT back: it trims every line and drops the empty ones, splits the lines
 into a game region and an audio region by the two header lines, groups each
 region at its marker lines (`[Part` and `[Language] `), keeps the last
 `[URL] ` and `[Size] ` value of every group, and writes one entry per group
 with a fixed hint between the part entries and the audio entries.

 The functions below state that behaviour declaratively; the methods at the
 end follow the source's loops and are proved to compute the same message.
 */
module Share {
  import opened Text
  import opened Api
  import opened Report

  /** A game-region line that opens a part group. Note: no trailing space. */
  const PartMarker: string := "[Part"

  /** The fixed line written between the part entries and the audio entries. */
  const Hint: string := "\nYou also need to download an audio pack corresponding to your system's region language.\n"

  // ---------------------------------------------------------------------
  // Cleaning: `lines().map(trim).filter(non-empty)`

  /** The trimmed lines of `ls` that are not empty after trimming, in order. */
  function Clean(ls: seq<string>): (r: seq<string>)
    ensures |r| <= |ls|
  {
    if ls == [] then []
    else (var t := Trim(ls[0]); if t == [] then [] else [t]) + Clean(ls[1..])
  }

  lemma {:induction false} CleanAppend(a: seq<string>, b: seq<string>)
    ensures Clean(a + b) == Clean(a) + Clean(b)
  {
    if a == [] {
      assert a + b == b;
    } else {
      assert (a + b)[1..] == a[1..] + b;
      assert (a + b)[0] == a[0];
      CleanAppend(a[1..], b);
      ConcatAssoc((if Trim(a[0]) == [] then [] else [Trim(a[0])]), Clean(a[1..]), Clean(b));
    }
  }

  lemma {:induction false} CleanCons(x: string, rest: seq<string>)
    ensures Clean([x] + rest) == (if Trim(x) == [] then [] else [Trim(x)]) + Clean(rest)
  {
    assert ([x] + rest)[1..] == rest;
  }

  function CleanLines(data: string): seq<string> {
    Clean(Lines(data))
  }

  // ---------------------------------------------------------------------
  // Regions: the `is_game_package` / `is_audio_package` state machine

  /** Which region the lines read so far put the next line in. */
  datatype Mode = Outside | InGame | InAudio

  predicate IsHeader(line: string) {
    line == GameHeader || line == AudioHeader
  }

  /** The effect of one line on the mode: a header line switches it. */
  function Step(m: Mode, line: string): Mode {
    if line == GameHeader then InGame
    else if line == AudioHeader then InAudio
    else m
  }

  /** The mode after reading `ls`, starting in `m`. */
  function ModeAfter(ls: seq<string>, m: Mode): Mode
    decreases |ls|
  {
    if ls == [] then m else ModeAfter(ls[1..], Step(m, ls[0]))
  }

  datatype Regions = Regions(game: seq<string>, audio: seq<string>)

  /** The lines of `ls` that land in each region, reading from mode `m`.
      Header lines are never placed in a region. */
  function SplitFrom(ls: seq<string>, m: Mode): (r: Regions)
    ensures |r.game| + |r.audio| <= |ls|
    decreases |ls|
  {
    if ls == [] then Regions([], [])
    else if IsHeader(ls[0]) then SplitFrom(ls[1..], Step(m, ls[0]))
    else
      var r := SplitFrom(ls[1..], m);
      Regions(if m == InGame then [ls[0]] + r.game else r.game,
              if m == InAudio then [ls[0]] + r.audio else r.audio)
  }

  /** Header lines are never placed in a region. */
  lemma {:induction false} RegionsHaveNoHeaders(ls: seq<string>, m: Mode)
    ensures forall i :: 0 <= i < |SplitFrom(ls, m).game| ==> !IsHeader(SplitFrom(ls, m).game[i])
    ensures forall i :: 0 <= i < |SplitFrom(ls, m).audio| ==> !IsHeader(SplitFrom(ls, m).audio[i])
    decreases |ls|
  {
    if ls != [] {
      RegionsHaveNoHeaders(ls[1..], Step(m, ls[0]));
      RegionsHaveNoHeaders(ls[1..], m);
    }
  }

  lemma {:induction false} ModeAfterSnoc(p: seq<string>, x: string, m: Mode)
    ensures ModeAfter(p + [x], m) == Step(ModeAfter(p, m), x)
    decreases |p|
  {
    if p == [] {
      assert ModeAfter([x], m) == ModeAfter([], Step(m, x));
    } else {
      assert (p + [x])[1..] == p[1..] + [x];
      ModeAfterSnoc(p[1..], x, Step(m, p[0]));
    }
  }

  lemma {:induction false} ModeAfterAppend(a: seq<string>, b: seq<string>, m: Mode)
    ensures ModeAfter(a + b, m) == ModeAfter(b, ModeAfter(a, m))
    decreases |a|
  {
    if a == [] {
      assert a + b == b;
    } else {
      assert (a + b)[1..] == a[1..] + b;
      ModeAfterAppend(a[1..], b, Step(m, a[0]));
    }
  }

  /** Splitting a concatenation: the second part is read in the mode the first part leaves. */
  lemma {:induction false} SplitAppend(a: seq<string>, b: seq<string>, m: Mode)
    ensures SplitFrom(a + b, m)
         == Regions(SplitFrom(a, m).game + SplitFrom(b, ModeAfter(a, m)).game,
                    SplitFrom(a, m).audio + SplitFrom(b, ModeAfter(a, m)).audio)
    decreases |a|
  {
    if a == [] {
      assert a + b == b;
    } else {
      assert (a + b)[1..] == a[1..] + b;
      SplitAppend(a[1..], b, Step(m, a[0]));
    }
  }

  /** Lines without a header all go to the region of the mode they are read in. */
  lemma {:induction false} SplitHeaderFree(ls: seq<string>, m: Mode)
    requires forall i :: 0 <= i < |ls| ==> !IsHeader(ls[i])
    ensures SplitFrom(ls, m) == Regions(if m == InGame then ls else [], if m == InAudio then ls else [])
    ensures ModeAfter(ls, m) == m
    decreases |ls|
  {
    if ls != [] {
      SplitHeaderFree(ls[1..], m);
      assert ls == [ls[0]] + ls[1..];
    }
  }

  /** Region membership, one line at a time: a line read after `p` joins the
      game region iff it is not a header and the mode after `p` is InGame,
      and the audio region iff it is not a header and that mode is InAudio. */
  lemma {:induction false} RegionOfNextLine(p: seq<string>, x: string, m: Mode)
    ensures SplitFrom(p + [x], m).game
         == SplitFrom(p, m).game + (if !IsHeader(x) && ModeAfter(p, m) == InGame then [x] else [])
    ensures SplitFrom(p + [x], m).audio
         == SplitFrom(p, m).audio + (if !IsHeader(x) && ModeAfter(p, m) == InAudio then [x] else [])
  {
    SplitAppend(p, [x], m);
    assert SplitFrom([x], ModeAfter(p, m)) == (
      if IsHeader(x) then SplitFrom([], Step(ModeAfter(p, m), x))
      else Regions(if ModeAfter(p, m) == InGame then [x] else [], if ModeAfter(p, m) == InAudio then [x] else []));
  }

  /** The mode after `p` is the one set by the most recent header line of `p`:
      reading from Outside, it is Step(Outside, h) for a header `h` exactly when
      `h` occurs in `p` with no header after it. */
  lemma {:induction false} MostRecentHeader(p: seq<string>, h: string)
    requires IsHeader(h)
    ensures ModeAfter(p, Outside) == Step(Outside, h)
        <==> exists j :: 0 <= j < |p| && p[j] == h && forall t :: j < t < |p| ==> !IsHeader(p[t])
    decreases |p|
  {
    if p != [] {
      var q, x := p[..|p| - 1], p[|p| - 1];
      assert p == q + [x];
      ModeAfterSnoc(q, x, Outside);
      MostRecentHeader(q, h);
      if x == h {
        assert p[|p| - 1] == h;
      } else if IsHeader(x) {
        assert Step(Outside, x) != Step(Outside, h);
        forall j | 0 <= j < |p| && p[j] == h
          ensures exists t :: j < t < |p| && IsHeader(p[t])
        {
          assert IsHeader(p[|p| - 1]);
        }
      } else {
        if exists j :: 0 <= j < |p| && p[j] == h && forall t :: j < t < |p| ==> !IsHeader(p[t]) {
          var j :| 0 <= j < |p| && p[j] == h && forall t :: j < t < |p| ==> !IsHeader(p[t]);
          assert j < |q| && q[j] == h && forall t :: j < t < |q| ==> !IsHeader(q[t]);
        }
        if exists j :: 0 <= j < |q| && q[j] == h && forall t :: j < t < |q| ==> !IsHeader(q[t]) {
          var j :| 0 <= j < |q| && q[j] == h && forall t :: j < t < |q| ==> !IsHeader(q[t]);
          assert p[j] == h && forall t :: j < t < |p| ==> !IsHeader(p[t]);
        }
      }
    }
  }

  // ---------------------------------------------------------------------
  // Groups: a marker line and the non-marker lines up to the next marker

  datatype Group = Group(head: string, body: seq<string>)

  /** The number of leading lines of `ls` that are not marker lines. */
  function RunLength(ls: seq<string>, marker: string): (n: nat)
    ensures n <= |ls|
    decreases |ls|
  {
    if ls == [] || StartsWith(ls[0], marker) then 0 else 1 + RunLength(ls[1..], marker)
  }

  /** The run is maximal: every line in it is no marker, and the line after it is one. */
  lemma {:induction false} RunLengthMaximal(ls: seq<string>, marker: string)
    ensures forall i :: 0 <= i < RunLength(ls, marker) ==> !StartsWith(ls[i], marker)
    ensures RunLength(ls, marker) < |ls| ==> StartsWith(ls[RunLength(ls, marker)], marker)
    decreases |ls|
  {
    if ls != [] && !StartsWith(ls[0], marker) {
      RunLengthMaximal(ls[1..], marker);
    }
  }

  /** The groups of `ls`: every marker line opens one, and the lines before the
      first marker belong to none. */
  function Groups(ls: seq<string>, marker: string): (gs: seq<Group>)
    decreases |ls|
  {
    if ls == [] then []
    else if StartsWith(ls[0], marker) then
      var n := RunLength(ls[1..], marker);
      [Group(ls[0], ls[1..1 + n])] + Groups(ls[1 + n..], marker)
    else Groups(ls[1..], marker)
  }

  /** The lines of the groups, head then body, group after group. */
  function Flatten(gs: seq<Group>): seq<string>
  {
    if gs == [] then [] else [gs[0].head] + gs[0].body + Flatten(gs[1..])
  }

  /** The head lines of the groups, in order. */
  function Heads(gs: seq<Group>): (r: seq<string>)
    ensures |r| == |gs|
  {
    if gs == [] then [] else [gs[0].head] + Heads(gs[1..])
  }

  /** Grouping at a marker line: the group it opens, then the groups of the
      lines after that group's body. */
  lemma {:induction false} GroupsAtHead(ls: seq<string>, marker: string)
    requires ls != [] && StartsWith(ls[0], marker)
    ensures var n := RunLength(ls[1..], marker);
            ls == [ls[0]] + ls[1..1 + n] + ls[1 + n..]
            && Select(ls, marker) == [ls[0]] + Select(ls[1 + n..], marker)
            && RunLength(ls[1 + n..], marker) == 0
  {
    var n := RunLength(ls[1..], marker);
    RunLengthMaximal(ls[1..], marker);
    assert forall i :: 0 <= i < n ==> ls[1..1 + n][i] == ls[1..][i];
    SelectNone(ls[1..1 + n], marker);
    SelectAppend([ls[0]] + ls[1..1 + n], ls[1 + n..], marker);
    SelectAppend([ls[0]], ls[1..1 + n], marker);
    SelectCons(ls[0], [], marker);
  }

  /** Grouping partitions the lines from the first marker on: the groups,
      flattened, are exactly those lines in order. */
  lemma {:induction false} GroupsPartition(ls: seq<string>, marker: string)
    ensures Flatten(Groups(ls, marker)) == ls[RunLength(ls, marker)..]
    decreases |ls|
  {
    if ls != [] {
      if StartsWith(ls[0], marker) {
        var n := RunLength(ls[1..], marker);
        GroupsAtHead(ls, marker);
        GroupsPartition(ls[1 + n..], marker);
        assert Flatten(Groups(ls, marker))
            == [ls[0]] + ls[1..1 + n] + Flatten(Groups(ls[1 + n..], marker));
      } else {
        GroupsPartition(ls[1..], marker);
      }
    }
  }

  /** Grouping opens exactly one group per marker line, in the order the
      markers occur. */
  lemma {:induction false} GroupsHeads(ls: seq<string>, marker: string)
    ensures Heads(Groups(ls, marker)) == Select(ls, marker)
    decreases |ls|
  {
    if ls != [] {
      if StartsWith(ls[0], marker) {
        var n := RunLength(ls[1..], marker);
        GroupsAtHead(ls, marker);
        GroupsHeads(ls[1 + n..], marker);
        assert Groups(ls, marker)[1..] == Groups(ls[1 + n..], marker);
      } else {
        GroupsHeads(ls[1..], marker);
        SelectCons(ls[0], ls[1..], marker);
        assert ls == [ls[0]] + ls[1..];
      }
    }
  }

  lemma {:induction false} SelectNone(ls: seq<string>, marker: string)
    requires forall i :: 0 <= i < |ls| ==> !StartsWith(ls[i], marker)
    ensures Select(ls, marker) == []
    decreases |ls|
  {
    if ls != [] {
      SelectNone(ls[1..], marker);
    }
  }

  lemma {:induction false} RunLengthAppend(a: seq<string>, b: seq<string>, marker: string)
    ensures RunLength(a + b, marker)
         == if RunLength(a, marker) < |a| then RunLength(a, marker) else |a| + RunLength(b, marker)
    decreases |a|
  {
    if a == [] {
      assert a + b == b;
    } else {
      assert (a + b)[1..] == a[1..] + b;
      RunLengthAppend(a[1..], b, marker);
    }
  }

  /** The first group of `a + b` is the first group of `a` when `b` starts
      at a marker line, and the lines after it are those after it in `a`,
      followed by `b`. */
  lemma {:induction false} FirstGroupAppend(a: seq<string>, b: seq<string>, marker: string)
    requires a != [] && StartsWith(a[0], marker)
    requires b == [] || StartsWith(b[0], marker)
    ensures var n := RunLength(a[1..], marker);
            Groups(a + b, marker) == [Group(a[0], a[1..1 + n])] + Groups(a[1 + n..] + b, marker)
  {
    var ab := a + b;
    var n := RunLength(a[1..], marker);
    assert ab[0] == a[0];
    assert ab[1..] == a[1..] + b;
    RunLengthAppend(a[1..], b, marker);
    assert RunLength(b, marker) == 0;
    assert ab[1..1 + n] == a[1..1 + n];
    assert ab[1 + n..] == a[1 + n..] + b;
  }

  /** Grouping a concatenation whose second part starts at a marker line. */
  lemma {:induction false} GroupsAppend(a: seq<string>, b: seq<string>, marker: string)
    requires b == [] || StartsWith(b[0], marker)
    ensures Groups(a + b, marker) == Groups(a, marker) + Groups(b, marker)
    decreases |a|
  {
    if a == [] {
      assert a + b == b;
    } else if StartsWith(a[0], marker) {
      var n := RunLength(a[1..], marker);
      var g := Group(a[0], a[1..1 + n]);
      FirstGroupAppend(a, b, marker);
      GroupsAppend(a[1 + n..], b, marker);
      assert Groups(a, marker) == [g] + Groups(a[1 + n..], marker);
      ConcatAssoc([g], Groups(a[1 + n..], marker), Groups(b, marker));
    } else {
      assert (a + b)[0] == a[0];
      assert (a + b)[1..] == a[1..] + b;
      GroupsAppend(a[1..], b, marker);
    }
  }

  /** Grouping the lines from a marker at `i` up to the next marker `j`. */
  lemma {:induction false} GroupsAtMarker(ls: seq<string>, i: nat, j: nat, marker: string)
    requires i < j <= |ls|
    requires StartsWith(ls[i], marker)
    requires forall t :: i < t < j ==> !StartsWith(ls[t], marker)
    requires j == |ls| || StartsWith(ls[j], marker)
    ensures Groups(ls[i..], marker) == [Group(ls[i], ls[i + 1..j])] + Groups(ls[j..], marker)
  {
    var s := ls[i..];
    var n := RunLength(s[1..], marker);
    assert s[1..] == ls[i + 1..];
    RunLengthMaximal(s[1..], marker);
    assert n == j - i - 1;
    assert s[1..1 + n] == ls[i + 1..j];
    assert s[1 + n..] == ls[j..];
  }

  // ---------------------------------------------------------------------
  // Entries

  /** One entry of the share message. */
  datatype Entry = Entry(title: string, size: string, url: string)

  function Render(e: Entry): string {
    e.title + " (" + e.size + "GB):\n" + e.url + "\n"
  }

  function RenderAll(es: seq<Entry>): string {
    if es == [] then "" else Render(es[0]) + RenderAll(es[1..])
  }

  lemma {:induction false} RenderAllAppend(a: seq<Entry>, b: seq<Entry>)
    ensures RenderAll(a + b) == RenderAll(a) + RenderAll(b)
  {
    if a == [] {
      assert a + b == b;
    } else {
      assert (a + b)[1..] == a[1..] + b;
      assert (a + b)[0] == a[0];
      RenderAllAppend(a[1..], b);
      ConcatAssoc(Render(a[0]), RenderAll(a[1..]), RenderAll(b));
    }
  }

  /** The last line of `body` that starts with `p`, if any. */
  function LastWith(body: seq<string>, p: string): Option<string>
    decreases |body|
  {
    if body == [] then None
    else if StartsWith(body[|body| - 1], p) then Some(body[|body| - 1])
    else LastWith(body[..|body| - 1], p)
  }

  /** `LastWith` finds the line starting with `p` that no later line starting
      with `p` follows, and finds nothing exactly when no line starts with `p`. */
  lemma {:induction false} LastWithSpec(body: seq<string>, p: string)
    ensures LastWith(body, p).None? <==> forall i :: 0 <= i < |body| ==> !StartsWith(body[i], p)
    ensures LastWith(body, p).Some? ==>
              exists i :: 0 <= i < |body| && body[i] == LastWith(body, p).value && StartsWith(body[i], p)
                          && forall t :: i < t < |body| ==> !StartsWith(body[t], p)
    decreases |body|
  {
    if body != [] && !StartsWith(body[|body| - 1], p) {
      var q := body[..|body| - 1];
      LastWithSpec(q, p);
      if LastWith(q, p).Some? {
        var i :| 0 <= i < |q| && q[i] == LastWith(q, p).value && StartsWith(q[i], p)
                 && forall t :: i < t < |q| ==> !StartsWith(q[t], p);
        assert body[i] == q[i];
      }
    }
  }

  /** The URL a `[URL] ` line carries: the line with every `[URL] ` removed. */
  function UrlText(line: string): string {
    RemoveAll(line, UrlPrefix)
  }

  /** The size a `[Size] ` line carries: every `[Size] ` and every `GB` removed, then trimmed. */
  function SizeText(line: string): string {
    Trim(RemoveAll(RemoveAll(line, SizePrefix), SizeUnit))
  }

  /** The URL of a group: from its last `[URL] ` line, empty when it has none. */
  function UrlValue(body: seq<string>): string {
    match LastWith(body, UrlPrefix)
    case Some(line) => UrlText(line)
    case None => ""
  }

  /** The size of a group: from its last `[Size] ` line, empty when it has none. */
  function SizeValue(body: seq<string>): string {
    match LastWith(body, SizePrefix)
    case Some(line) => SizeText(line)
    case None => ""
  }

  /** Last write wins: a line appended to a group replaces its URL when it is a
      `[URL] ` line and its size when it is a `[Size] ` line, and otherwise
      changes neither. */
  lemma {:induction false} ValuesSnoc(body: seq<string>, x: string)
    ensures UrlValue(body + [x]) == if StartsWith(x, UrlPrefix) then UrlText(x) else UrlValue(body)
    ensures SizeValue(body + [x]) == if StartsWith(x, SizePrefix) then SizeText(x) else SizeValue(body)
  {
    assert (body + [x])[..|body|] == body;
    assert (body + [x])[|body|] == x;
  }

  lemma {:induction false} OtherLineKeepsValues(body: seq<string>, x: string)
    requires !StartsWith(x, UrlPrefix) && !StartsWith(x, SizePrefix)
    ensures UrlValue(body + [x]) == UrlValue(body)
    ensures SizeValue(body + [x]) == SizeValue(body)
  {
    ValuesSnoc(body, x);
  }

  /** `[Decompressed Size]` lines never affect the size or the URL of a group. */
  lemma {:induction false} DecompressedLineKeepsSize(body: seq<string>, rendered: string)
    ensures SizeValue(body + [SizeLine(DecompressedPrefix, rendered)]) == SizeValue(body)
    ensures UrlValue(body + [SizeLine(DecompressedPrefix, rendered)]) == UrlValue(body)
  {
    var x := SizeLine(DecompressedPrefix, rendered);
    DiffersAt(x, UrlPrefix, 1);
    DiffersAt(x, SizePrefix, 1);
    OtherLineKeepsValues(body, x);
  }

  // ---------------------------------------------------------------------
  // Labels

  /** The language table of the share message. */
  function LanguageName(code: string): string {
    if code == "zh-cn" then "Chinese"
    else if code == "en-us" then "English"
    else if code == "ko-kr" then "Korean"
    else if code == "ja-jp" then "Japanese"
    else code
  }

  /** The share-message wording applied after the table lookup. */
  function ShareWording(name: string): string {
    if name == "Chinese" then "China"
    else if name == "English" then "English - If anything else"
    else name
  }

  /** The label of an audio entry. Because the wording step runs on the looked-up
      name, a raw code "Chinese" or "English" is reworded as well. */
  function AudioLabel(code: string): (r: string)
    ensures code == "zh-cn" || code == "Chinese" ==> r == "China"
    ensures code == "en-us" || code == "English" ==> r == "English - If anything else"
    ensures code == "ko-kr" ==> r == "Korean"
    ensures code == "ja-jp" ==> r == "Japanese"
    ensures code !in {"zh-cn", "en-us", "ko-kr", "ja-jp", "Chinese", "English"} ==> r == code
  {
    ShareWording(LanguageName(code))
  }

  /** The part number of a `[Part ...]` line: leading `[Part ` and trailing `]` stripped. */
  function PartNumber(head: string): string {
    TrimEndMatches(TrimStartMatches(head, PartPrefix), "]")
  }

  /** The part number read back from a formatted `[Part n]` line is the decimal n. */
  lemma {:induction false} PartNumberOfPartLine(n: nat)
    ensures PartNumber(PartLine(n)) == NatToString(n)
  {
    var d := NatToString(n);
    assert PartLine(n) == PartPrefix + (d + "]");
    RemoveLeading(PartPrefix, d + "]");
    DiffersAt(d + "]", PartPrefix, 0);
    assert (d + "]")[..|d|] == d;
    assert !EndsWith(d, "]");
  }

  lemma {:induction false} RemoveLeading(p: string, s: string)
    requires |p| > 0
    ensures TrimStartMatches(p + s, p) == TrimStartMatches(s, p)
  {
    assert StartsWith(p + s, p);
    assert (p + s)[|p|..] == s;
  }

  datatype Kind = Parts | Audio

  /** The marker that opens a group in the region of `kind`. */
  function Marker(kind: Kind): string {
    match kind
    case Parts => PartMarker
    case Audio => LanguagePrefix
  }

  function Label(kind: Kind, head: string): string {
    match kind
    case Parts => "Part " + PartNumber(head)
    case Audio => AudioLabel(RemoveAll(head, LanguagePrefix))
  }

  function EntryOf(kind: Kind, g: Group): Entry {
    Entry(Label(kind, g.head), SizeValue(g.body), UrlValue(g.body))
  }

  /** One entry per group, in group order. */
  function Entries(kind: Kind, gs: seq<Group>): seq<Entry> {
    if gs == [] then [] else [EntryOf(kind, gs[0])] + Entries(kind, gs[1..])
  }

  /** The entries a region yields: one per group. */
  function RegionEntries(kind: Kind, region: seq<string>): seq<Entry> {
    Entries(kind, Groups(region, Marker(kind)))
  }

  /** The share message derived from the report text `data`. */
  function ShareMessage(data: string): (r: string)
    ensures |r| >= |Hint|
  {
    var r := SplitFrom(CleanLines(data), Outside);
    RenderAll(RegionEntries(Parts, r.game)) + Hint + RenderAll(RegionEntries(Audio, r.audio))
  }

  lemma {:induction false} EntriesAppend(kind: Kind, a: seq<Group>, b: seq<Group>)
    ensures Entries(kind, a + b) == Entries(kind, a) + Entries(kind, b)
  {
    if a == [] {
      assert a + b == b;
    } else {
      assert (a + b)[1..] == a[1..] + b;
      assert (a + b)[0] == a[0];
      EntriesAppend(kind, a[1..], b);
      ConcatAssoc([EntryOf(kind, a[0])], Entries(kind, a[1..]), Entries(kind, b));
    }
  }

  lemma {:induction false} EntriesIndex(kind: Kind, gs: seq<Group>)
    ensures |Entries(kind, gs)| == |gs|
    ensures forall k :: 0 <= k < |gs| ==> Entries(kind, gs)[k] == EntryOf(kind, gs[k])
    decreases |gs|
  {
    if gs != [] {
      var rest := Entries(kind, gs[1..]);
      EntriesIndex(kind, gs[1..]);
      assert Entries(kind, gs) == [EntryOf(kind, gs[0])] + rest;
      forall k | 1 <= k < |gs|
        ensures Entries(kind, gs)[k] == EntryOf(kind, gs[k])
      {
        assert Entries(kind, gs)[k] == rest[k - 1];
        assert gs[k] == gs[1..][k - 1];
      }
    }
  }

  /** A region yields exactly one entry per marker line, in the order the
      markers occur, each titled by the label of its marker line. */
  lemma {:induction false} EntriesMatchMarkers(kind: Kind, region: seq<string>)
    ensures |RegionEntries(kind, region)| == |Select(region, Marker(kind))|
    ensures forall k :: 0 <= k < |RegionEntries(kind, region)| ==>
              RegionEntries(kind, region)[k].title == Label(kind, Select(region, Marker(kind))[k])
  {
    var gs := Groups(region, Marker(kind));
    GroupsHeads(region, Marker(kind));
    EntriesIndex(kind, gs);
    HeadsIndex(gs);
  }

  lemma {:induction false} HeadsIndex(gs: seq<Group>)
    ensures forall k :: 0 <= k < |gs| ==> Heads(gs)[k] == gs[k].head
    decreases |gs|
  {
    if gs != [] {
      HeadsIndex(gs[1..]);
      assert forall k :: 1 <= k < |gs| ==> gs[k] == gs[1..][k - 1];
    }
  }

  /** The entries of a concatenation whose second part starts at a marker line. */
  lemma {:induction false} RegionEntriesAppend(kind: Kind, a: seq<string>, b: seq<string>)
    requires b == [] || StartsWith(b[0], Marker(kind))
    ensures RegionEntries(kind, a + b) == RegionEntries(kind, a) + RegionEntries(kind, b)
  {
    GroupsAppend(a, b, Marker(kind));
    EntriesAppend(kind, Groups(a, Marker(kind)), Groups(b, Marker(kind)));
  }

  /** A line that is no marker and carries neither a URL nor a size does not
      change the entries of a region it is appended to. */
  lemma {:induction false} JunkLineKeepsEntries(kind: Kind, a: seq<string>, x: string)
    requires !StartsWith(x, Marker(kind)) && !StartsWith(x, UrlPrefix) && !StartsWith(x, SizePrefix)
    ensures RegionEntries(kind, a + [x]) == RegionEntries(kind, a)
    decreases |a|
  {
    var mk := Marker(kind);
    var ax := a + [x];
    if a == [] {
      assert ax == [x];
      assert Groups(ax, mk) == Groups([], mk);
    } else {
      assert ax[0] == a[0];
      assert ax[1..] == a[1..] + [x];
      if StartsWith(a[0], mk) {
        var n := RunLength(a[1..], mk);
        RunLengthAppend(a[1..], [x], mk);
        if n < |a| - 1 {
          var g := Group(a[0], a[1..1 + n]);
          assert ax[1..1 + n] == a[1..1 + n];
          assert ax[1 + n..] == a[1 + n..] + [x];
          assert Groups(ax, mk) == [g] + Groups(a[1 + n..] + [x], mk);
          assert Groups(a, mk) == [g] + Groups(a[1 + n..], mk);
          JunkLineKeepsEntries(kind, a[1 + n..], x);
          EntriesAppend(kind, [g], Groups(a[1 + n..] + [x], mk));
          EntriesAppend(kind, [g], Groups(a[1 + n..], mk));
        } else {
          assert RunLength([x], mk) == 1;
          assert RunLength(ax[1..], mk) == |a|;
          assert ax[1..1 + |a|] == a[1..] + [x];
          assert ax[1 + |a|..] == [];
          assert a[1..1 + n] == a[1..] && a[1 + n..] == [];
          assert Groups(ax, mk) == [Group(a[0], a[1..] + [x])] + Groups([], mk);
          assert Groups(a, mk) == [Group(a[0], a[1..])] + Groups([], mk);
          OtherLineKeepsValues(a[1..], x);
          assert EntryOf(kind, Group(a[0], a[1..] + [x])) == EntryOf(kind, Group(a[0], a[1..]));
        }
      } else {
        assert Groups(ax, mk) == Groups(a[1..] + [x], mk);
        assert Groups(a, mk) == Groups(a[1..], mk);
        JunkLineKeepsEntries(kind, a[1..], x);
      }
    }
  }

  /** Input without header lines yields nothing but the hint; the empty input is such an input. */
  lemma {:induction false} NoHeadersYieldHint(data: string)
    requires forall i :: 0 <= i < |CleanLines(data)| ==> !IsHeader(CleanLines(data)[i])
    ensures ShareMessage(data) == Hint
  {
    var ls := CleanLines(data);
    SplitHeaderFree(ls, Outside);
    assert SplitFrom(ls, Outside) == Regions([], []);
    assert RegionEntries(Parts, []) == [];
    assert RegionEntries(Audio, []) == [];
  }

  lemma {:induction false} EmptyInputYieldsHint()
    ensures ShareMessage("") == Hint
  {
    NoHeadersYieldHint("");
  }

  // ---------------------------------------------------------------------
  // The source's loops

  function ModeOf(isGame: bool, isAudio: bool): Mode {
    if isGame then InGame else if isAudio then InAudio else Outside
  }

  /** The region-splitting loop of `convert_to_message` (src/main.rs:243-259):
      one pass with two flags, pushing each non-header line
      into the region the flags select. */
  method SplitRegions(lines: seq<string>) returns (game: seq<string>, audio: seq<string>)
    ensures Regions(game, audio) == SplitFrom(lines, Outside)
  {
    game, audio := [], [];
    var isGame, isAudio := false, false;
    var i := 0;
    while i < |lines|
      invariant 0 <= i <= |lines|
      invariant !(isGame && isAudio)
      invariant game + SplitFrom(lines[i..], ModeOf(isGame, isAudio)).game == SplitFrom(lines, Outside).game
      invariant audio + SplitFrom(lines[i..], ModeOf(isGame, isAudio)).audio == SplitFrom(lines, Outside).audio
    {
      var line := lines[i];
      assert lines[i..][1..] == lines[i + 1..];
      if line == GameHeader {
        isGame, isAudio := true, false;
      } else if line == AudioHeader {
        isGame, isAudio := false, true;
      } else {
        if isGame {
          game := game + [line];
        } else if isAudio {
          audio := audio + [line];
        }
      }
      i := i + 1;
    }
  }

  /** The inner scanning loops of `convert_to_message` (src/main.rs:272-283
      and 314-324): scan from `from` to the
      next marker line, keeping the value of the last `[URL] ` and `[Size] ` line. */
  method ScanGroup(region: seq<string>, from: nat, marker: string) returns (j: nat, url: string, size: string)
    requires from <= |region|
    ensures from <= j <= |region|
    ensures forall t :: from <= t < j ==> !StartsWith(region[t], marker)
    ensures j == |region| || StartsWith(region[j], marker)
    ensures url == UrlValue(region[from..j])
    ensures size == SizeValue(region[from..j])
  {
    j, url, size := from, "", "";
    assert region[from..j] == [];
    while j < |region| && !StartsWith(region[j], marker)
      invariant from <= j <= |region|
      invariant forall t :: from <= t < j ==> !StartsWith(region[t], marker)
      invariant url == UrlValue(region[from..j])
      invariant size == SizeValue(region[from..j])
    {
      var line := region[j];
      assert region[from..j + 1] == region[from..j] + [line];
      ValuesSnoc(region[from..j], line);
      if StartsWith(line, UrlPrefix) {
        DiffersAt(line, SizePrefix, 1);
        url := UrlText(line);
      } else if StartsWith(line, SizePrefix) {
        size := SizeText(line);
      }
      j := j + 1;
    }
  }

  /** The text the entries of `region` from line `i` on render to. */
  function Remaining(kind: Kind, region: seq<string>, i: nat): string
    requires i <= |region|
  {
    RenderAll(RegionEntries(kind, region[i..]))
  }

  lemma {:induction false} RemainingBounds(kind: Kind, region: seq<string>)
    ensures Remaining(kind, region, 0) == RenderAll(RegionEntries(kind, region))
    ensures Remaining(kind, region, |region|) == ""
  {
    assert region[0..] == region;
    assert region[|region|..] == [];
    assert RegionEntries(kind, []) == [];
  }

  /** A region read from a marker line at `i` up to the next marker at `j`
      renders as that group's entry followed by the rest of the region. */
  lemma {:induction false} RenderAtMarker(kind: Kind, region: seq<string>, i: nat, j: nat)
    requires i < j <= |region|
    requires StartsWith(region[i], Marker(kind))
    requires forall t :: i < t < j ==> !StartsWith(region[t], Marker(kind))
    requires j == |region| || StartsWith(region[j], Marker(kind))
    ensures Remaining(kind, region, i) == Render(EntryOf(kind, Group(region[i], region[i + 1..j]))) + Remaining(kind, region, j)
  {
    var g := Group(region[i], region[i + 1..j]);
    var rest := Groups(region[j..], Marker(kind));
    GroupsAtMarker(region, i, j, Marker(kind));
    EntriesAppend(kind, [g], rest);
    assert Entries(kind, [g]) == [EntryOf(kind, g)];
    RenderAllAppend([EntryOf(kind, g)], Entries(kind, rest));
    assert RenderAll([EntryOf(kind, g)]) == Render(EntryOf(kind, g));
  }

  /** A line that is no marker, read outside any group, renders as nothing. */
  lemma {:induction false} RenderSkipsLine(kind: Kind, region: seq<string>, i: nat)
    requires i < |region|
    requires !StartsWith(region[i], Marker(kind))
    ensures Remaining(kind, region, i) == Remaining(kind, region, i + 1)
  {
    assert region[i..][0] == region[i];
    assert region[i..][1..] == region[i + 1..];
  }

  /** One pass of the outer loops of `convert_to_message` (src/main.rs:262-288
      and 302-337): at a marker
      line, scan to the next marker and write the group's entry; at any other
      line, move on without writing. */
  method EmitStep(region: seq<string>, kind: Kind, i: nat) returns (next: nat, text: string)
    requires i < |region|
    ensures i < next <= |region|
    ensures text + Remaining(kind, region, next) == Remaining(kind, region, i)
  {
    if StartsWith(region[i], Marker(kind)) {
      var head := region[i];
      var url, size;
      next, url, size := ScanGroup(region, i + 1, Marker(kind));
      RenderAtMarker(kind, region, i, next);
      text := Render(Entry(Label(kind, head), size, url));
    } else {
      RenderSkipsLine(kind, region, i);
      next, text := i + 1, "";
    }
  }

  /** The outer loops of `convert_to_message` (src/main.rs:262-288 for parts,
      302-337 for audio): walk the region and write
      one entry at every marker line; other lines before a marker are skipped. */
  method EmitEntries(region: seq<string>, kind: Kind) returns (out: string)
    ensures out == RenderAll(RegionEntries(kind, region))
  {
    out := "";
    var i := 0;
    RemainingBounds(kind, region);
    while i < |region|
      invariant 0 <= i <= |region|
      invariant out + Remaining(kind, region, i) == RenderAll(RegionEntries(kind, region))
    {
      var next, text := EmitStep(region, kind, i);
      out := out + text;
      i := next;
    }
  }

  /** `convert_to_message`: clean the lines, split the regions, write the
      part entries, the hint, then the audio entries. */
  method ConvertToMessage(data: string) returns (message: string)
    ensures message == ShareMessage(data)
  {
    var lines := CleanLines(data);
    var game, audio := SplitRegions(lines);
    message := EmitEntries(game, Parts);
    message := message + Hint;
    var audioText := EmitEntries(audio, Audio);
    message := message + audioText;
  }
}
